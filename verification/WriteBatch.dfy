/** Executing a batch of write calls (internal/service/batching_server.go,
    executeWriteBatch, and internal/service/batcher.go, executeBatch): the code
    takes only steps of the batcher. */
module WriteBatches {
  import opened Options
  import opened BatchSelection
  import opened BatcherSteps
  import opened BatcherLoop
  import opened WriteCompletion

  /** A started call whose write has not begun and that has no answer. */
  ghost predicate Pending(s: State, id: nat) {
    && id < |s.calls| == |s.batch| == |s.done| && s.batch[id] in s.running && s.batch[id] !in s.over
    && id !in s.begun && id !in s.closed && s.done[id] == {}
  }

  ghost predicate AllPending(s: State, ids: seq<nat>) {
    forall n :: 0 <= n < |ids| ==> Pending(s, ids[n])
  }

  ghost predicate DistinctIds(ids: seq<nat>) {
    forall m, n :: 0 <= m < n < |ids| ==> ids[m] != ids[n]
  }

  /** From `s` to `t` only calls of `ids` were answered, begun or given results. */
  ghost predicate Only(s: State, t: State, ids: seq<nat>) {
    && t == s.(active := t.active, holding := t.holding, done := t.done, closed := t.closed, messages := t.messages,
               begun := t.begun, returned := t.returned)
    && OnlyThese(s.closed, t.closed, ids) && OnlyThese(s.begun, t.begun, ids) && s.returned <= t.returned
    && ResultsOf(s.done, t.done, ids)
  }

  lemma OnlyLeaves(s: State, t: State, ids: seq<nat>, others: seq<nat>)
    requires Only(s, t, ids) && AllPending(s, others) && forall n :: 0 <= n < |others| ==> others[n] !in ids
    ensures AllPending(t, others)
  {
    forall n | 0 <= n < |others| ensures Pending(t, others[n]) {
      assert Pending(s, others[n]);
    }
  }

  lemma OnlyMore(s: State, t: State, u: State, ids: seq<nat>, more: seq<nat>)
    requires Only(s, t, ids) && Only(t, u, more) && forall n :: 0 <= n < |ids| ==> ids[n] in more
    ensures Only(s, u, more)
  {
  }

  /** The calls that are not cancelled, in order. */
  function Uncancelled(ids: seq<nat>, cancelled: set<nat>): seq<nat> {
    if ids == [] then []
    else
      var n := |ids| - 1;
      Uncancelled(ids[..n], cancelled) + (if ids[n] in cancelled then [] else [ids[n]])
  }

  lemma {:induction false} UncancelledExact(ids: seq<nat>, cancelled: set<nat>)
    ensures forall x :: x in Uncancelled(ids, cancelled) <==> x in ids && x !in cancelled
    ensures DistinctIds(ids) ==> DistinctIds(Uncancelled(ids, cancelled))
  {
    if ids != [] {
      var n := |ids| - 1;
      UncancelledExact(ids[..n], cancelled);
      assert ids == ids[..n] + [ids[n]];
      assert DistinctIds(ids) ==> DistinctIds(ids[..n]) && ids[n] !in ids[..n];
    }
  }

  /** Of the first `n` calls exactly the cancelled ones are answered. */
  ghost predicate Swept(s: State, ids: seq<nat>, cancelled: set<nat>, n: nat) {
    forall m :: 0 <= m < |ids| ==>
      if m < n && ids[m] in cancelled then ids[m] in s.closed else Pending(s, ids[m])
  }

  lemma SweptNext(s: State, t: State, ids: seq<nat>, cancelled: set<nat>, n: nat)
    requires n < |ids| && DistinctIds(ids) && Swept(s, ids, cancelled, n)
    requires if ids[n] in cancelled then Only(s, t, [ids[n]]) && ids[n] in t.closed else t == s
    ensures Swept(t, ids, cancelled, n + 1)
  {
    forall m | 0 <= m < |ids|
      ensures if m < n + 1 && ids[m] in cancelled then ids[m] in t.closed else Pending(t, ids[m])
    {
      assert if m < n && ids[m] in cancelled then ids[m] in s.closed else Pending(s, ids[m]);
    }
  }

  /** A call is answered, and nothing else happens to it or to others. */
  lemma OnlyAnswered(s: State, t: State, id: nat)
    requires t == s.(closed := s.closed + {id}, holding := t.holding, messages := t.messages)
    ensures Only(s, t, [id])
  {
  }

  /** `liveMutationCalls`: exactly the cancelled calls are answered and left out. */
  method LiveCalls(batcher: Batcher, ids: seq<nat>, cancelled: set<nat>) returns (live: seq<nat>)
    requires Inv(batcher.Now()) && DistinctIds(ids) && AllPending(batcher.Now(), ids)
    modifies batcher`closed, batcher`holding, batcher`recordsDone
    ensures Inv(batcher.Now()) && Reaches(old(batcher.Now()), batcher.Now())
        && Only(old(batcher.Now()), batcher.Now(), ids)
    ensures DistinctIds(live) && AllPending(batcher.Now(), live) && forall n :: 0 <= n < |live| ==> live[n] in ids
    ensures live == Uncancelled(ids, cancelled)
    ensures forall n :: 0 <= n < |ids| ==> ids[n] in live || (ids[n] in batcher.closed && ids[n] in cancelled)
  {
    hide Inv, Reaches, Only, Swept;
    live := [];
    ghost var s := batcher.Now();
    ReachSelf(s);
    OnlyNone(s, ids);
    assert Swept(s, ids, cancelled, 0) by { NoneSwept(s, ids, cancelled); }
    for n := 0 to |ids|
      invariant Inv(batcher.Now()) && Reaches(s, batcher.Now()) && Only(s, batcher.Now(), ids)
      invariant Swept(batcher.Now(), ids, cancelled, n) && live == Uncancelled(ids[..n], cancelled)
    {
      assert ids[..n + 1][..n] == ids[..n];
      ghost var u := batcher.Now();
      if ids[n] in cancelled {
        AnswerOne(batcher, ids, cancelled, n);
        ReachOn(s, u, batcher.Now());
        OnlyMore(u, batcher.Now(), batcher.Now(), [ids[n]], ids) by { OnlyNone(batcher.Now(), ids); }
        OnlyMore(s, u, batcher.Now(), ids, ids);
      } else {
        live := live + [ids[n]];
      }
      SweptNext(u, batcher.Now(), ids, cancelled, n);
    }
    assert ids[..|ids|] == ids;
    UncancelledExact(ids, cancelled);
    AllSwept(batcher.Now(), ids, cancelled, live);
  }

  lemma NoneSwept(s: State, ids: seq<nat>, cancelled: set<nat>)
    requires AllPending(s, ids)
    ensures Swept(s, ids, cancelled, 0)
  {
  }

  lemma AllSwept(s: State, ids: seq<nat>, cancelled: set<nat>, live: seq<nat>)
    requires Swept(s, ids, cancelled, |ids|) && forall x :: x in live <==> x in ids && x !in cancelled
    ensures AllPending(s, live)
    ensures forall n :: 0 <= n < |ids| ==> ids[n] in live || (ids[n] in s.closed && ids[n] in cancelled)
  {
    forall n | 0 <= n < |live| ensures Pending(s, live[n]) {
      assert live[n] in live;
      var m :| 0 <= m < |ids| && ids[m] == live[n];
    }
  }

  /** A cancelled call is answered before its write begins. */
  method AnswerOne(batcher: Batcher, ids: seq<nat>, ghost cancelled: set<nat>, n: nat)
    requires Inv(batcher.Now()) && n < |ids| && Swept(batcher.Now(), ids, cancelled, n)
    modifies batcher`closed, batcher`holding, batcher`recordsDone
    ensures Inv(batcher.Now()) && Reaches(old(batcher.Now()), batcher.Now())
    ensures Only(old(batcher.Now()), batcher.Now(), [ids[n]]) && ids[n] in batcher.closed
  {
    hide Inv, Reaches;
    ghost var u := batcher.Now();
    assert Pending(u, ids[n]);
    Answering(u, ids[n]);
    InShape(u);
    batcher.CompleteCall(ids[n]);
    OnlyAnswered(u, batcher.Now(), ids[n]);
  }

  /** The write of every call was called, unless the call was dropped. */
  ghost predicate Ran(s: State, ids: seq<nat>, dropped: set<nat>) {
    forall n :: 0 <= n < |ids| ==> ids[n] in s.begun || ids[n] in dropped
  }

  lemma RanMore(s: State, t: State, ids: seq<nat>, dropped: set<nat>, more: set<nat>)
    requires Ran(s, ids, dropped) && s.begun <= t.begun && dropped <= more
    ensures Ran(t, ids, more)
  {
  }

  lemma RanJoin(s: State, ids: seq<nat>, from: nat, to: nat, dropped: set<nat>)
    requires from <= to <= |ids| && Ran(s, ids[..from], dropped) && Ran(s, ids[from..to], dropped)
    ensures Ran(s, ids[..to], dropped)
  {
    forall n | 0 <= n < to ensures ids[..to][n] in s.begun || ids[..to][n] in dropped {
      if n < from {
        assert ids[..to][n] == ids[..from][n];
      } else {
        assert ids[..to][n] == ids[from..to][n - from];
      }
    }
  }

  lemma RanNone(s: State, dropped: set<nat>)
    ensures Ran(s, [], dropped)
  {
  }

  /** Calls that are left out of `live` were dropped. */
  lemma RanLive(s: State, ids: seq<nat>, live: seq<nat>, dropped: set<nat>, more: set<nat>)
    requires Ran(s, live, dropped) && dropped <= more
    requires forall n :: 0 <= n < |ids| ==> ids[n] in live || ids[n] in more
    ensures Ran(s, ids, more)
  {
  }

  /** A call that is done with: it has its answer if it has operations, and its
      write is not running. */
  ghost predicate Served(s: State, id: nat) {
    && id < |s.calls| && (s.calls[id].targets != [] ==> id in s.closed) && (id in s.begun ==> id in s.returned)
  }

  ghost predicate AllServed(s: State, ids: seq<nat>) {
    forall n :: 0 <= n < |ids| ==> Served(s, ids[n])
  }

  lemma ServedStays(s: State, t: State, ids: seq<nat>, more: seq<nat>)
    requires AllServed(s, ids) && Only(s, t, more) && forall n :: 0 <= n < |ids| ==> ids[n] !in more
    ensures AllServed(t, ids)
  {
    forall n | 0 <= n < |ids| ensures Served(t, ids[n]) {
      assert Served(s, ids[n]);
    }
  }

  lemma BeginStep(s: State, id: nat)
    requires Inv(s) && Pending(s, id)
    ensures Inv(Begin(s, id)) && Reaches(s, Begin(s, id))
  {
    hide Inv, Reaches;
    InShape(s);
    BeginKeeps(s, id);
    ReachSelf(s);
    assert Enabled(s, Beginning(id));
    ReachStep(s, s, Beginning(id));
  }

  /** The write of a group is called. */
  ghost method BeginAll(batcher: Batcher, group: seq<nat>)
    requires Inv(batcher.Now()) && DistinctIds(group) && AllPending(batcher.Now(), group)
    modifies batcher`begun
    ensures Inv(batcher.Now()) && Reaches(old(batcher.Now()), batcher.Now())
    ensures OnlyThese(old(batcher.begun), batcher.begun, group)
    ensures forall n :: 0 <= n < |group| ==> group[n] in batcher.begun
  {
    hide Inv, Reaches;
    var s := batcher.Now();
    ReachSelf(s);
    for n := 0 to |group|
      invariant Inv(batcher.Now()) && Reaches(s, batcher.Now())
      invariant OnlyThese(s.begun, batcher.begun, group[..n]) && forall m :: 0 <= m < n ==> group[m] in batcher.begun
    {
      var u := batcher.Now();
      assert Pending(s, group[n]);
      assert group[n] !in group[..n];
      assert Pending(u, group[n]);
      BeginStep(u, group[n]);
      batcher.begun := batcher.begun + {group[n]};
      ReachOn(s, u, batcher.Now());
    }
    assert group[..|group|] == group;
  }

  lemma OnlyTwice(s: State, t: State, u: State, ids: seq<nat>)
    requires OnlyThese(s.closed, t.closed, ids) && ResultsOf(s.done, t.done, ids)
    requires OnlyThese(t.closed, u.closed, ids) && ResultsOf(t.done, u.done, ids)
    ensures OnlyThese(s.closed, u.closed, ids) && ResultsOf(s.done, u.done, ids)
  {
  }

  /** The first result for position `x`. */
  function FirstFor(results: seq<(nat, nat)>, x: nat): Option<nat> {
    if results == [] then None
    else
      var n := |results| - 1;
      var first := FirstFor(results[..n], x);
      if first.Some? then first else if results[n].0 == x then Some(results[n].1) else None
  }

  /** Every operation has been given the first result for its position. */
  ghost predicate Early(trackers: seq<Tracker>, owners: seq<Owner>, results: seq<(nat, nat)>) {
    forall x :: 0 <= x < |owners| ==>
      owners[x].caller < |trackers| && EarlyAt(trackers, owners[x], FirstFor(results, x))
  }

  ghost predicate EarlyAt(trackers: seq<Tracker>, owner: Owner, first: Option<nat>)
    requires owner.caller < |trackers|
  {
    Published(trackers, owner) == if first.None? then None else Some(Answer(owner.index, first.value))
  }

  lemma EarlyNext(before: seq<Tracker>, after: seq<Tracker>, owners: seq<Owner>, results: seq<(nat, nat)>, n: nat)
    requires n < |results| && Early(before, owners, results[..n]) && |after| == |before|
    requires results[n].0 < |owners| ==>
               Published(after, owners[results[n].0])
               == FirstOf(Published(before, owners[results[n].0]), owners[results[n].0], results[n].1)
    requires forall x :: 0 <= x < |owners| && x != results[n].0 ==>
               Published(after, owners[x]) == Published(before, owners[x])
    ensures Early(after, owners, results[..n + 1])
  {
    hide Published;
    assert results[..n + 1][..n] == results[..n];
    forall x | 0 <= x < |owners| ensures EarlyAt(after, owners[x], FirstFor(results[..n + 1], x)) {
      assert EarlyAt(before, owners[x], FirstFor(results[..n], x));
    }
  }

  /** The write itself, as far as the batcher sees it: any results, at positions of
      the batch, in any order. */
  method Write(completion: Completion, results: seq<(nat, nat)>)
    requires completion.Valid() && completion.errors == {}
    requires Early(completion.trackers, completion.owners, [])
    modifies completion`trackers, completion.batcher`done, completion.batcher`closed, completion.batcher`holding,
             completion.batcher`recordsDone
    ensures completion.Valid() && Reaches(old(completion.batcher.Now()), completion.batcher.Now())
    ensures OnlyThese(old(completion.batcher.closed), completion.batcher.closed, completion.group)
    ensures ResultsOf(old(completion.batcher.done), completion.batcher.done, completion.group)
    ensures Early(completion.trackers, completion.owners, results)
  {
    hide Completion.Valid, Inv, Reaches, Finish, OnlyThese, ResultsOf, Early, Published, FirstOf, Owned;
    var batcher := completion.batcher;
    ghost var s := batcher.Now();
    completion.Shape();
    ReachSelf(s);
    OnlySelf(batcher.closed, batcher.done, completion.group);
    for n := 0 to |results|
      invariant completion.Valid() && completion.errors == {} && Reaches(s, batcher.Now())
      invariant OnlyThese(s.closed, batcher.closed, completion.group)
          && ResultsOf(s.done, batcher.done, completion.group)
      invariant Early(completion.trackers, completion.owners, results[..n])
    {
      ghost var before := completion.trackers;
      completion.Shape();
      OwnersKnown(batcher.calls, completion.group, completion.owners);
      if results[n].0 < |completion.owners| {
        ghost var u := batcher.Now();
        OwnersDiffer(batcher.calls, completion.group, completion.owners, results[n].0);
        completion.Operation(results[n].0, results[n].1);
        OnlyTwice(s, u, batcher.Now(), completion.group);
        ReachOn(s, u, batcher.Now());
      }
      EarlyNext(before, completion.trackers, completion.owners, results, n);
    }
    assert results[..|results|] == results;
  }

  /** What every operation of a group is told: the first result that its write
      brought, and otherwise what the write returned for its position. When the
      write fails, exactly the callers that still wait get the error. */
  ghost predicate Told(completion: Completion, results: seq<(nat, nat)>, failed: bool, verdicts: seq<nat>)
    reads completion
  {
    if failed || |verdicts| != |completion.owners| then
      && Early(completion.trackers, completion.owners, results)
      && forall c: nat :: c in completion.errors <==>
                   c < |completion.group| && c < |completion.trackers| && completion.trackers[c].remaining > 0
    else
      && completion.errors == {}
      && forall x :: 0 <= x < |completion.owners| ==>
           && completion.owners[x].caller < |completion.trackers|
           && Published(completion.trackers, completion.owners[x])
              == FirstOf(Given(completion.owners[x], FirstFor(results, x)), completion.owners[x], verdicts[x])
  }

  function Given(owner: Owner, first: Option<nat>): Option<Answer> {
    if first.None? then None else Some(Answer(owner.index, first.value))
  }

  /** One group of `executeWriteBatch`: its write is called, brings results, and
      returns, and what is left is answered. */
  method ExecuteGroup(batcher: Batcher, group: seq<nat>, results: seq<(nat, nat)>, failed: bool, verdicts: seq<nat>)
    returns (completion: Completion)
    requires Inv(batcher.Now()) && DistinctIds(group) && AllPending(batcher.Now(), group)
    modifies batcher`done, batcher`closed, batcher`holding, batcher`recordsDone, batcher`begun, batcher`returned
    ensures Inv(batcher.Now()) && Reaches(old(batcher.Now()), batcher.Now())
    ensures Only(old(batcher.Now()), batcher.Now(), group) && AllServed(batcher.Now(), group)
    ensures Ran(batcher.Now(), group, {}) && forall n :: 0 <= n < |group| ==> group[n] in batcher.returned
    ensures fresh(completion) && completion.batcher == batcher && completion.group == group && completion.Valid()
    ensures Told(completion, results, failed, verdicts)
  {
    hide Completion.Valid, Inv, Reaches, OnlyThese, ResultsOf, Only, AllServed, Published, FirstOf, Early, Told, Owned;
    ghost var s := batcher.Now();
    BeginAll(batcher, group);
    ghost var b := batcher.Now();
    assert forall c :: 0 <= c < |group| ==> Pending(s, group[c]);
    completion := new Completion(batcher, group);
    completion.Shape();
    NoneEarly(batcher.calls, group, completion.owners, completion.trackers);
    Write(completion, results);
    ghost var w := batcher.Now();
    completion.Shape();
    ReachOn(s, b, w);
    completion.WriteReturned();
    ghost var r := batcher.Now();
    completion.Shape();
    ReachOn(s, w, r);
    ghost var before := completion.trackers;
    completion.FinishAll(failed, verdicts);
    completion.Shape();
    AllTold(completion, before, results, failed, verdicts);
    ReachOn(s, r, batcher.Now());
    OnlyTwice(s, w, batcher.Now(), group);
    GroupOver(s, batcher.Now(), group);
  }

  lemma NoneEarly(calls: seq<Call>, group: seq<nat>, owners: seq<Owner>, trackers: seq<Tracker>)
    requires Known(calls, group) && Owned(calls, group, owners) && |trackers| == |group|
    requires forall y: Owner :: y.caller < |trackers| ==> Published(trackers, y) == None
    ensures Early(trackers, owners, [])
  {
    hide Owned, Published;
    OwnersKnown(calls, group, owners);
  }

  lemma AllTold(completion: Completion, before: seq<Tracker>, results: seq<(nat, nat)>, failed: bool,
                verdicts: seq<nat>)
    requires Early(before, completion.owners, results) && |before| == |completion.trackers| == |completion.group|
    requires if failed || |verdicts| != |completion.owners|
             then completion.trackers == before
                 && forall c: nat :: c in completion.errors <==>
                       c < |completion.group| && completion.trackers[c].remaining > 0
             else completion.errors == {} && forall x :: 0 <= x < |completion.owners| ==>
               Published(completion.trackers, completion.owners[x])
               == FirstOf(Published(before, completion.owners[x]), completion.owners[x], verdicts[x])
    ensures Told(completion, results, failed, verdicts)
  {
    hide Published;
    forall x | 0 <= x < |completion.owners|
      ensures Published(before, completion.owners[x]) == Given(completion.owners[x], FirstFor(results, x))
    {
      assert EarlyAt(before, completion.owners[x], FirstFor(results, x));
    }
  }

  lemma GroupOver(s: State, t: State, group: seq<nat>)
    requires t == s.(active := t.active, holding := t.holding, done := t.done, closed := t.closed,
                     messages := t.messages,
                     begun := t.begun, returned := t.returned)
    requires OnlyThese(s.closed, t.closed, group) && OnlyThese(s.begun, t.begun, group) && s.returned <= t.returned
    requires ResultsOf(s.done, t.done, group)
    requires forall n :: 0 <= n < |group| ==> group[n] < |t.calls| && group[n] in t.returned
    requires forall n :: 0 <= n < |group| && t.calls[group[n]].targets != [] ==> group[n] in t.closed
    ensures Only(s, t, group) && AllServed(t, group)
  {
  }

  // ---------------------------------------------------------------------
  // All groups of one completion mode
  // ---------------------------------------------------------------------

  /** What a group may meet: how many of the next calls fit, which of them were
      cancelled, the results its write brings, and how it returns. */
  datatype Turnout = Turnout(size: nat, cancelled: set<nat>, results: seq<(nat, nat)>, failed: bool, verdicts: seq<nat>)

  lemma SlicesApart(ids: seq<nat>, from: nat, to: nat)
    requires DistinctIds(ids) && from <= to <= |ids|
    ensures forall n :: 0 <= n < |ids[to..]| ==> ids[to..][n] !in ids[from..to]
    ensures forall n :: 0 <= n < from ==> ids[n] !in ids[from..to]
  {
  }

  /** One round of the loop of `executeWriteBatch` on calls `batch`. */
  method ExecuteNext(batcher: Batcher, batch: seq<nat>, turnout: Turnout)
    requires Inv(batcher.Now()) && DistinctIds(batch) && AllPending(batcher.Now(), batch)
    modifies batcher`done, batcher`closed, batcher`holding, batcher`recordsDone, batcher`begun, batcher`returned
    ensures Inv(batcher.Now()) && Reaches(old(batcher.Now()), batcher.Now())
    ensures Only(old(batcher.Now()), batcher.Now(), batch) && AllServed(batcher.Now(), batch)
    ensures Ran(batcher.Now(), batch, turnout.cancelled)
  {
    hide Inv, Reaches, Only, AllServed, Told, Ran, Completion.Valid;
    ghost var s := batcher.Now();
    var group := LiveCalls(batcher, batch, turnout.cancelled);
    ghost var u := batcher.Now();
    if |group| > 0 {
      var _ := ExecuteGroup(batcher, group, turnout.results, turnout.failed, turnout.verdicts);
    } else {
      RanNone(u, {});
      ReachSelf(u);
      OnlyNone(u, group);
      NoneServed(u);
    }
    ghost var t := batcher.Now();
    ReachOn(s, u, t);
    OnlyMore(u, t, t, group, batch) by { OnlyNone(t, batch); }
    OnlyMore(s, u, t, batch, batch);
    DroppedServed(s, u, t, batch, group);
    RanLive(t, batch, group, {}, turnout.cancelled);
  }

  lemma OnlyNone(s: State, ids: seq<nat>)
    ensures Only(s, s, ids)
  {
  }

  /** Calls that were dropped are answered and their writes never begin. */
  lemma DroppedServed(s: State, u: State, t: State, batch: seq<nat>, group: seq<nat>)
    requires AllPending(s, batch) && Only(s, u, batch) && u.begun == s.begun && Only(u, t, group) && AllServed(t, group)
    requires forall n :: 0 <= n < |batch| ==> batch[n] in group || batch[n] in u.closed
    ensures AllServed(t, batch)
  {
    forall n | 0 <= n < |batch| ensures Served(t, batch[n]) {
      assert Pending(s, batch[n]);
      if batch[n] in group {
        var m :| 0 <= m < |group| && group[m] == batch[n];
        assert Served(t, group[m]);
      }
    }
  }

  /** `executeWriteBatch`: whatever is cancelled and whatever the writes bring, it
      takes only steps of the batcher, and in the end every call with operations
      has its answer and no write is running. */
  method ExecuteWriteBatch(batcher: Batcher, calls: seq<nat>, cancelled: set<nat>, turnouts: seq<Turnout>)
    requires Inv(batcher.Now()) && DistinctIds(calls) && AllPending(batcher.Now(), calls)
    modifies batcher`done, batcher`closed, batcher`holding, batcher`recordsDone, batcher`begun, batcher`returned
    ensures Inv(batcher.Now()) && Reaches(old(batcher.Now()), batcher.Now())
    ensures Only(old(batcher.Now()), batcher.Now(), calls) && AllServed(batcher.Now(), calls)
    ensures Ran(batcher.Now(), calls, cancelled + Dropped(turnouts))
  {
    hide Inv, Reaches, Only, AllServed, AllPending, DistinctIds, Served, Ran, Dropped;
    ghost var s := batcher.Now();
    var live := LiveCalls(batcher, calls, cancelled);
    ghost var l := batcher.Now();
    var start, round := 0, 0;
    OnlyNone(l, live);
    ReachSelf(l);
    assert live[0..] == live;
    NoneServed(l);
    RanNone(l, Dropped(turnouts));
    assert live[..0] == [];
    while start < |live|
      invariant 0 <= start <= |live| && Inv(batcher.Now()) && Reaches(l, batcher.Now()) && Only(l, batcher.Now(), live)
      invariant AllPending(batcher.Now(), live[start..]) && AllServed(batcher.Now(), live[..start])
      invariant Ran(batcher.Now(), live[..start], Dropped(turnouts))
      decreases |live| - start
    {
      // At least one call, and as many as the memory estimate allows.
      var size := if round < |turnouts| then turnouts[round].size else 0;
      var end := if start + size < |live| then start + size + 1 else |live|;
      ghost var u := batcher.Now();
      Split(u, live, start, end);
      var turnout := if round < |turnouts| then turnouts[round] else Turnout(0, {}, [], false, []);
      ExecuteNext(batcher, live[start..end], turnout);
      Joined(l, u, batcher.Now(), live, start, end);
      DroppedAt(turnouts, round);
      RanOn(u, batcher.Now(), live, start, end, turnout.cancelled, Dropped(turnouts));
      ReachOn(l, u, batcher.Now());
      start, round := end, round + 1;
    }
    assert live[..start] == live;
    ReachOn(s, l, batcher.Now());
    OnlyMore(l, batcher.Now(), batcher.Now(), live, calls) by { OnlyNone(batcher.Now(), calls); }
    OnlyMore(s, l, batcher.Now(), calls, calls);
    DroppedServed(s, l, batcher.Now(), calls, live);
    RanLive(batcher.Now(), calls, live, Dropped(turnouts), cancelled + Dropped(turnouts));
  }

  /** The calls that were cancelled when their group was about to run. */
  function Dropped(turnouts: seq<Turnout>): set<nat> {
    if turnouts == [] then {} else Dropped(turnouts[..|turnouts| - 1]) + turnouts[|turnouts| - 1].cancelled
  }

  lemma {:induction false} DroppedAt(turnouts: seq<Turnout>, r: nat)
    ensures r < |turnouts| ==> turnouts[r].cancelled <= Dropped(turnouts)
  {
    if r < |turnouts| - 1 {
      DroppedAt(turnouts[..|turnouts| - 1], r);
    }
  }

  lemma RanOn(u: State, t: State, ids: seq<nat>, from: nat, to: nat, dropped: set<nat>, all: set<nat>)
    requires from <= to <= |ids| && Only(u, t, ids[from..to]) && dropped <= all
    requires Ran(u, ids[..from], all) && Ran(t, ids[from..to], dropped)
    ensures Ran(t, ids[..to], all)
  {
    hide Ran;
    RanMore(u, t, ids[..from], all, all);
    RanMore(t, t, ids[from..to], dropped, all);
    RanJoin(t, ids, from, to, all);
  }

  lemma NoneServed(s: State)
    ensures AllServed(s, [])
  {
  }

  lemma Split(s: State, ids: seq<nat>, from: nat, to: nat)
    requires from <= to <= |ids| && AllPending(s, ids[from..]) && DistinctIds(ids)
    ensures AllPending(s, ids[from..to]) && DistinctIds(ids[from..to])
  {
    assert ids[from..to] == ids[from..][..to - from];
    forall n | 0 <= n < to - from ensures Pending(s, ids[from..to][n]) {
      assert ids[from..to][n] == ids[from..][n];
    }
  }

  lemma Joined(l: State, u: State, t: State, ids: seq<nat>, from: nat, to: nat)
    requires from <= to <= |ids| && DistinctIds(ids) && Only(l, u, ids) && Only(u, t, ids[from..to])
    requires AllPending(u, ids[from..]) && AllServed(u, ids[..from]) && AllServed(t, ids[from..to])
    ensures Only(l, t, ids) && AllPending(t, ids[to..]) && AllServed(t, ids[..to])
  {
    hide Only, Pending, Served;
    SlicesApart(ids, from, to);
    OnlyMore(u, t, t, ids[from..to], ids) by { OnlyNone(t, ids); }
    OnlyMore(l, u, t, ids, ids);
    forall n | 0 <= n < |ids[to..]| ensures Pending(u, ids[to..][n]) {
      assert ids[to..][n] == ids[from..][to - from + n];
    }
    OnlyLeaves(u, t, ids[from..to], ids[to..]);
    forall n | 0 <= n < from ensures ids[..from][n] !in ids[from..to] {
      assert ids[..from][n] == ids[n];
    }
    ServedStays(u, t, ids[..from], ids[from..to]);
    forall n | 0 <= n < to ensures Served(t, ids[..to][n]) {
      if n < from {
        assert ids[..to][n] == ids[..from][n];
      } else {
        assert ids[..to][n] == ids[from..to][n - from];
      }
    }
  }

  // ---------------------------------------------------------------------
  // A whole batch
  // ---------------------------------------------------------------------

  /** What one group of the wave plan meets. */
  datatype Part = Part(size: nat, cancelled: set<nat>, turnouts: seq<Turnout>)

  /** The calls of batch `b`, in the order in which the wave plan executes them. */
  ghost predicate Lists(s: State, b: nat, order: seq<nat>) {
    && |s.batch| == |s.calls|
    && (forall n :: 0 <= n < |order| ==> order[n] < |s.calls| && s.batch[order[n]] == b)
    && (forall i :: 0 <= i < |s.calls| && s.batch[i] == b ==> i in order)
  }

  /** The groups of the wave plan, one after another. */
  method ExecuteParts(batcher: Batcher, order: seq<nat>, parts: seq<Part>)
    requires Inv(batcher.Now()) && DistinctIds(order) && AllPending(batcher.Now(), order)
    modifies batcher`done, batcher`closed, batcher`holding, batcher`recordsDone, batcher`begun, batcher`returned
    ensures Inv(batcher.Now()) && Reaches(old(batcher.Now()), batcher.Now())
    ensures Only(old(batcher.Now()), batcher.Now(), order) && AllServed(batcher.Now(), order)
    ensures Ran(batcher.Now(), order, LeftOut(parts))
  {
    hide Inv, Reaches, Only, AllServed, AllPending, DistinctIds, Served, Ran, LeftOut, Dropped;
    ghost var s := batcher.Now();
    var start, round := 0, 0;
    OnlyNone(s, order);
    ReachSelf(s);
    NoneServed(s);
    RanNone(s, LeftOut(parts));
    assert order[0..] == order && order[..0] == [];
    while start < |order|
      invariant 0 <= start <= |order| && Inv(batcher.Now()) && Reaches(s, batcher.Now())
          && Only(s, batcher.Now(), order)
      invariant AllPending(batcher.Now(), order[start..]) && AllServed(batcher.Now(), order[..start])
      invariant Ran(batcher.Now(), order[..start], LeftOut(parts))
      decreases |order| - start
    {
      var part := if round < |parts| then parts[round] else Part(|order|, {}, []);
      var end := if start + part.size < |order| then start + part.size + 1 else |order|;
      ghost var u := batcher.Now();
      Split(u, order, start, end);
      ExecuteWriteBatch(batcher, order[start..end], part.cancelled, part.turnouts);
      Joined(s, u, batcher.Now(), order, start, end);
      LeftOutAt(parts, round, part);
      RanOn(u, batcher.Now(), order, start, end, part.cancelled + Dropped(part.turnouts), LeftOut(parts));
      ReachOn(s, u, batcher.Now());
      start, round := end, round + 1;
    }
    assert order[..start] == order;
  }

  function LeftOut(parts: seq<Part>): set<nat> {
    if parts == [] then {}
    else
      var part := parts[|parts| - 1];
      LeftOut(parts[..|parts| - 1]) + part.cancelled + Dropped(part.turnouts)
  }

  lemma {:induction false} LeftOutAt(parts: seq<Part>, r: nat, part: Part)
    requires part == if r < |parts| then parts[r] else Part(part.size, {}, [])
    ensures part.cancelled + Dropped(part.turnouts) <= LeftOut(parts)
  {
    if r < |parts| - 1 {
      LeftOutAt(parts[..|parts| - 1], r, part);
    }
  }

  lemma LeaveStep(s: State, b: nat, order: seq<nat>)
    requires Inv(s) && b in s.running && Lists(s, b, order) && AllServed(s, order)
    ensures Inv(Leave(s, b)) && Reaches(s, Leave(s, b))
  {
    hide Inv, Reaches;
    forall i | 0 <= i < |s.calls| && s.batch[i] == b && i in s.begun ensures i in s.returned {
      var n :| 0 <= n < |order| && order[n] == i;
      assert Served(s, order[n]);
    }
    LeaveKeeps(s, b);
    ReachSelf(s);
    assert Enabled(s, Leaving(b));
    ReachStep(s, s, Leaving(b));
  }

  lemma ClearStep(s: State, id: nat)
    requires Inv(s) && id < |s.calls| == |s.batch| == |s.holding| && s.batch[id] in s.over
    ensures var t := Release(s, id, Keys(s.calls[id]));
            && Inv(t) && Reaches(s, t) && t.holding[id] == {} && t == s.(holding := t.holding, messages := t.messages)
            && |t.holding| == |s.holding| && forall i :: 0 <= i < |s.holding| && i != id ==>
            t.holding[i] == s.holding[i]
  {
    hide Inv, Reaches, Keys;
    ClearKeeps(s, id);
    ReachSelf(s);
    assert Enabled(s, Clearing(id));
    ReachStep(s, s, Clearing(id));
  }

  lemma EndStep(s: State, b: nat)
    requires Inv(s) && b in s.running && b in s.over && |s.batch| == |s.holding| == |s.calls|
    requires forall i :: 0 <= i < |s.calls| && s.batch[i] == b ==> s.holding[i] == {}
    ensures Inv(End(s, b)) && Reaches(s, End(s, b))
  {
    hide Inv, Reaches;
    EndKeeps(s, b);
    ReachSelf(s);
    assert Enabled(s, Ending(b));
    ReachStep(s, s, Ending(b));
  }

  /** What `executeBatch` gives back after the execution has returned. */
  method GiveBack(batcher: Batcher, b: nat, order: seq<nat>)
    requires Inv(batcher.Now()) && Lists(batcher.Now(), b, order) && b in batcher.over
    modifies batcher`holding, batcher`recordsDone
    ensures Inv(batcher.Now()) && Reaches(old(batcher.Now()), batcher.Now())
        && |batcher.holding| == |old(batcher.holding)|
    ensures forall n :: 0 <= n < |order| ==> order[n] < |batcher.holding| && batcher.holding[order[n]] == {}
  {
    hide Inv, Reaches, Keys, Records;
    ghost var s := batcher.Now();
    InShape(s);
    ReachSelf(s);
    for n := 0 to |order|
      invariant Inv(batcher.Now()) && Reaches(s, batcher.Now()) && |batcher.holding| == |s.holding|
      invariant forall m :: 0 <= m < n ==> batcher.holding[order[m]] == {}
    {
      ghost var u := batcher.Now();
      var id := order[n];
      ClearStep(u, id);
      RecordKeys(batcher.calls[id]);
      batcher.FinishRecords(id, Records(batcher.calls[id].targets));
      ReachOn(s, u, batcher.Now());
    }
  }

  lemma RecordKeys(call: Call)
    ensures KeySet(Records(call.targets)) == Keys(call)
  {
    RecordsExact(call.targets);
  }

  /** `executeBatch`: the batch runs, gives everything back and ends; the code takes
      only steps of the batcher, so every property of runs holds of it. */
  method ExecuteBatch(batcher: Batcher, b: nat, order: seq<nat>, parts: seq<Part>)
    requires Inv(batcher.Now()) && b in batcher.running && b !in batcher.over
    requires Lists(batcher.Now(), b, order) && DistinctIds(order) && AllPending(batcher.Now(), order)
    modifies batcher`done, batcher`closed, batcher`holding, batcher`recordsDone, batcher`begun, batcher`returned,
             batcher`over, batcher`running
    ensures Inv(batcher.Now()) && Reaches(old(batcher.Now()), batcher.Now())
    ensures batcher.running == old(batcher.running) - {b}
    ensures |batcher.holding| == |batcher.calls| && AllServed(batcher.Now(), order)
    ensures Ran(batcher.Now(), order, LeftOut(parts))
    ensures forall n :: 0 <= n < |order| ==> batcher.holding[order[n]] == {}
  {
    hide Inv, Reaches, DistinctIds, AllPending, Served, Ran, LeftOut;
    ghost var s := batcher.Now();
    ExecuteParts(batcher, order, parts);
    ghost var e := batcher.Now();
    LeaveStep(e, b, order);
    batcher.over := batcher.over + {b};
    ghost var l := batcher.Now();
    ReachOn(s, e, l);
    assert AllServed(l, order) by { Unaffected(e, l, order); }
    GiveBack(batcher, b, order);
    ghost var g := batcher.Now();
    ReachOn(s, l, g);
    InShape(g);
    EndStep(g, b);
    batcher.running := batcher.running - {b};
    ReachOn(s, g, batcher.Now());
    assert AllServed(batcher.Now(), order) by { Unaffected(e, batcher.Now(), order); }
    RanMore(e, batcher.Now(), order, LeftOut(parts), LeftOut(parts));
  }

  lemma Unaffected(s: State, t: State, ids: seq<nat>)
    requires AllServed(s, ids) && t.calls == s.calls && t.closed == s.closed && t.begun == s.begun
        && t.returned == s.returned
    ensures AllServed(t, ids)
  {
    forall n | 0 <= n < |ids| ensures Served(t, ids[n]) {
      assert Served(s, ids[n]);
    }
  }

  lemma {:induction false} StartAllBatch(s: State, ids: seq<nat>)
    requires |s.calls| == |s.batch| == |s.holding| && Known(s.calls, ids)
    ensures var t := StartAll(s, ids);
            && t == s.(batch := t.batch, holding := t.holding, active := t.active)
            && forall i :: 0 <= i < |s.batch| ==> t.batch[i] == if i in ids then s.batches else s.batch[i]
  {
    if ids != [] {
      hide Bump, Keys;
      var n := |ids| - 1;
      StartAllBatch(s, ids[..n]);
      assert ids == ids[..n] + [ids[n]];
    }
  }

  /** The calls that the loop starts are what `executeBatch` then executes, in any
      order. */
  lemma StartedPending(s: State, picked: seq<bool>, order: seq<nat>)
    requires Inv(s) && |picked| == |s.queue| && DistinctIds(order)
    requires forall x :: x in order <==> x in Pick(s.queue, picked, true)
    ensures Known(s.calls, Pick(s.queue, picked, true))
    ensures var t := Start(s, Pick(s.queue, picked, true), Pick(s.queue, picked, false));
            && t.batches == s.batches + 1 && t.batches in t.running && t.batches !in t.over
            && Lists(t, t.batches, order) && AllPending(t, order)
  {
    PickKnown(s.calls, s.queue, picked, true);
    PickFrom(s.queue, picked, true);
    NewBatch(s);
    var chosen, rest := Pick(s.queue, picked, true), Pick(s.queue, picked, false);
    StartAllBatch(Opened(s, rest), chosen);
    var t := Start(s, chosen, rest);
    hide Pick, StartAll, Counted, Exclusive, Ordered, Final;
    forall n | 0 <= n < |order| ensures Pending(t, order[n]) {
      assert order[n] in order;
      assert order[n] in chosen && order[n] in s.queue;
    }
  }
}
