/** Choosing the next batch from the queue of waiting calls
    (`selectReady` in internal/service/batcher.go). */
module BatchSelection {

  datatype Target = Record(key: nat) | Invalid

  datatype Partition = Partition(resource: nat, mode: nat, isolated: bool)

  /** A submitted call: the record each operation addresses, its size, and the
      partition it may share a batch with. */
  datatype Call = Call(targets: seq<Target>, bytes: nat, partition: Partition)

  datatype Limits = Limits(operations: nat, bytes: nat)

  datatype Reason = MaxWait | MaxOperations | MaxBytes

  predicate Touches(call: Call, key: nat) { Record(key) in call.targets }

  ghost predicate Share(a: Call, b: Call) { exists key :: Touches(a, key) && Touches(b, key) }

  predicate Held(active: map<nat, nat>, key: nat) { key in active && active[key] > 0 }

  // ---------------------------------------------------------------------
  // The choice, declaratively
  // ---------------------------------------------------------------------

  /** The chosen (or the other) elements of a queue, in queue order. */
  function Pick(queue: seq<nat>, picked: seq<bool>, which: bool): seq<nat>
    requires |queue| == |picked|
  {
    if queue == [] then []
    else
      var n := |queue| - 1;
      Pick(queue[..n], picked[..n], which) + (if picked[n] == which then [queue[n]] else [])
  }

  function Operations(calls: seq<Call>, ids: seq<nat>): nat
    requires Known(calls, ids)
  {
    if ids == [] then 0 else Operations(calls, ids[..|ids| - 1]) + |calls[ids[|ids| - 1]].targets|
  }

  function Bytes(calls: seq<Call>, ids: seq<nat>): nat
    requires Known(calls, ids)
  {
    if ids == [] then 0 else Bytes(calls, ids[..|ids| - 1]) + calls[ids[|ids| - 1]].bytes
  }

  predicate Known(calls: seq<Call>, ids: seq<nat>) {
    forall k :: 0 <= k < |ids| ==> ids[k] < |calls|
  }

  /** A record of the call is in use, or an earlier call on it was passed over. */
  ghost predicate Dependent(calls: seq<Call>, queue: seq<nat>, active: map<nat, nat>, picked: seq<bool>, n: nat)
    requires Known(calls, queue) && n < |queue| && n <= |picked|
  {
    exists key :: Touches(calls[queue[n]], key) &&
                  (Held(active, key) || exists e :: 0 <= e < n && !picked[e] && Touches(calls[queue[e]], key))
  }

  ghost predicate Fits(calls: seq<Call>, call: Call, limits: Limits, chosen: seq<nat>)
    requires Known(calls, chosen)
  {
    chosen == [] ||
    (Operations(calls, chosen) + |call.targets| <= limits.operations
        && Bytes(calls, chosen) + call.bytes <= limits.bytes)
  }

  ghost predicate Compatible(calls: seq<Call>, call: Call, chosen: seq<nat>)
    requires Known(calls, chosen)
  {
    forall k :: 0 <= k < |chosen| ==>
      call.partition == calls[chosen[k]].partition && !call.partition.isolated
  }

  lemma {:induction false} PickKnown(calls: seq<Call>, queue: seq<nat>, picked: seq<bool>, which: bool)
    requires Known(calls, queue) && |queue| == |picked|
    ensures Known(calls, Pick(queue, picked, which))
  {
    if queue != [] {
      PickKnown(calls, queue[..|queue| - 1], picked[..|queue| - 1], which);
    }
  }

  ghost function ChosenBefore(calls: seq<Call>, queue: seq<nat>, picked: seq<bool>, n: nat): (ids: seq<nat>)
    requires Known(calls, queue) && n <= |queue| && n <= |picked|
    ensures Known(calls, ids)
  {
    PickKnown(calls, queue[..n], picked[..n], true);
    Pick(queue[..n], picked[..n], true)
  }

  /** The greedy choice: a call is taken exactly when it depends on nothing and
      the batch built so far has room and a place for it. */
  ghost predicate Greedy(calls: seq<Call>, queue: seq<nat>, active: map<nat, nat>, limits: Limits, picked: seq<bool>)
    requires Known(calls, queue)
  {
    && |picked| <= |queue|
    && (forall n :: 0 <= n < |picked| ==>
          (picked[n] <==>
           var chosen := ChosenBefore(calls, queue, picked, n);
           && !Dependent(calls, queue, active, picked, n)
           && Fits(calls, calls[queue[n]], limits, chosen)
           && Compatible(calls, calls[queue[n]], chosen)))
  }

  /** Whether a call is taken depends only on what happened to those before it. */
  lemma SameBefore(calls: seq<Call>, queue: seq<nat>, active: map<nat, nat>, a: seq<bool>, b: seq<bool>, n: nat)
    requires Known(calls, queue) && n < |queue| && n <= |a| && n <= |b| && forall e :: 0 <= e < n ==> a[e] == b[e]
    ensures ChosenBefore(calls, queue, a, n) == ChosenBefore(calls, queue, b, n)
    ensures Dependent(calls, queue, active, a, n) <==> Dependent(calls, queue, active, b, n)
  {
    assert a[..n] == b[..n];
  }

  lemma GreedyAt(calls: seq<Call>, queue: seq<nat>, active: map<nat, nat>, limits: Limits, picked: seq<bool>, n: nat)
    requires Known(calls, queue) && Greedy(calls, queue, active, limits, picked) && n < |picked|
    ensures |picked| <= |queue|
    ensures picked[n] <==>
            var chosen := ChosenBefore(calls, queue, picked, n);
            && !Dependent(calls, queue, active, picked, n)
            && Fits(calls, calls[queue[n]], limits, chosen)
            && Compatible(calls, calls[queue[n]], chosen)
  {
  }

  /** There is only one greedy choice. */
  lemma {:induction false} GreedyUnique(calls: seq<Call>, queue: seq<nat>, active: map<nat, nat>, limits: Limits,
                                        a: seq<bool>, b: seq<bool>, n: nat)
    requires Known(calls, queue) && |a| == |b| && n < |a|
    requires Greedy(calls, queue, active, limits, a) && Greedy(calls, queue, active, limits, b)
    ensures a[n] == b[n]
  {
    hide Greedy, Fits, Compatible, Dependent, ChosenBefore;
    GreedyAt(calls, queue, active, limits, a, n);
    GreedyAt(calls, queue, active, limits, b, n);
    forall e | 0 <= e < n ensures a[e] == b[e] {
      GreedyUnique(calls, queue, active, limits, a, b, e);
    }
    SameBefore(calls, queue, active, a, b, n);
  }

  // ---------------------------------------------------------------------
  // The loop
  // ---------------------------------------------------------------------

  /** `blocked` holds the unused records of the calls passed over so far. */
  ghost predicate Blocks(calls: seq<Call>, queue: seq<nat>, active: map<nat, nat>, picked: seq<bool>, blocked: set<nat>)
    requires Known(calls, queue) && |picked| <= |queue|
  {
    forall key :: key in blocked <==>
      !Held(active, key) && exists e :: 0 <= e < |picked| && !picked[e] && Touches(calls[queue[e]], key)
  }

  /** The first inner loop. */
  method IsDependent(call: Call, active: map<nat, nat>, blocked: set<nat>) returns (dependent: bool)
    ensures dependent <==> exists key :: Touches(call, key) && (Held(active, key) || key in blocked)
  {
    dependent := false;
    for n := 0 to |call.targets|
      invariant forall k :: 0 <= k < n && call.targets[k].Record? ==>
        !Held(active, call.targets[k].key) && call.targets[k].key !in blocked
    {
      if call.targets[n].Record? && (Held(active, call.targets[n].key) || call.targets[n].key in blocked) {
        assert Touches(call, call.targets[n].key);
        return true;
      }
    }
  }

  /** The second inner loop. */
  method Block(call: Call, active: map<nat, nat>, blocked: set<nat>) returns (after: set<nat>)
    ensures forall key :: key in after <==> key in blocked || (Touches(call, key) && !Held(active, key))
  {
    after := blocked;
    for n := 0 to |call.targets|
      invariant forall key :: key in after <==>
        key in blocked || (Record(key) in call.targets[..n] && !Held(active, key))
    {
      if call.targets[n].Record? && !Held(active, call.targets[n].key) {
        after := after + {call.targets[n].key};
      }
    }
    assert call.targets[..|call.targets|] == call.targets;
  }

  lemma {:induction false} PickNone(queue: seq<nat>, picked: seq<bool>)
    requires |queue| == |picked| && Pick(queue, picked, true) == []
    ensures Pick(queue, picked, false) == queue
  {
    if queue != [] {
      var n := |queue| - 1;
      PickNone(queue[..n], picked[..n]);
      assert queue == queue[..n] + [queue[n]];
    }
  }

  /** One more decision keeps the choice greedy. */
  lemma GreedyNext(calls: seq<Call>, queue: seq<nat>, active: map<nat, nat>, limits: Limits, picked: seq<bool>,
                   take: bool)
    requires Known(calls, queue) && Greedy(calls, queue, active, limits, picked) && |picked| < |queue|
    requires take <==>
             var n := |picked|;
             var chosen := ChosenBefore(calls, queue, picked, n);
             && !Dependent(calls, queue, active, picked, n)
             && Fits(calls, calls[queue[n]], limits, chosen)
             && Compatible(calls, calls[queue[n]], chosen)
    ensures Greedy(calls, queue, active, limits, picked + [take])
  {
    hide Fits, Compatible;
    var after := picked + [take];
    forall n | 0 <= n < |after|
      ensures after[..n] == picked[..n]
      ensures Dependent(calls, queue, active, after, n) <==> Dependent(calls, queue, active, picked, n)
    {
      assert after[..n] == picked[..n];
      assert forall e :: 0 <= e < n ==> after[e] == picked[e];
    }
  }

  /** The chosen and the skipped calls after one more decision. */
  lemma PickNext(queue: seq<nat>, picked: seq<bool>, take: bool)
    requires |picked| < |queue|
    ensures var n := |picked|;
            && Pick(queue[..n + 1], picked + [take], true)
               == Pick(queue[..n], picked, true) + (if take then [queue[n]] else [])
            && Pick(queue[..n + 1], picked + [take], false)
               == Pick(queue[..n], picked, false) + (if take then [] else [queue[n]])
  {
    PickLast(queue, picked, take, true);
    PickLast(queue, picked, take, false);
  }

  lemma PickLast(queue: seq<nat>, picked: seq<bool>, take: bool, which: bool)
    requires |picked| < |queue|
    ensures Pick(queue[..|picked| + 1], picked + [take], which)
            == Pick(queue[..|picked|], picked, which) + (if take == which then [queue[|picked|]] else [])
  {
    var n := |picked|;
    assert queue[..n + 1][..n] == queue[..n] && (picked + [take])[..n] == picked;
  }

  /** All chosen calls share one partition, so comparing with the first is enough. */
  ghost predicate Uniform(calls: seq<Call>, chosen: seq<nat>)
    requires Known(calls, chosen)
  {
    forall k :: 0 < k < |chosen| ==>
      calls[chosen[k]].partition == calls[chosen[0]].partition && !calls[chosen[0]].partition.isolated
  }

  datatype Choice = Choice(selected: seq<nat>, remaining: seq<nat>, blocked: set<nat>, operations: nat, bytes: nat)

  /** What the loop keeps. */
  ghost predicate Choosing(calls: seq<Call>, queue: seq<nat>, active: map<nat, nat>, limits: Limits,
                           picked: seq<bool>, c: Choice)
    requires Known(calls, queue)
  {
    && Greedy(calls, queue, active, limits, picked)
    && Blocks(calls, queue, active, picked, c.blocked)
    && c.selected == ChosenBefore(calls, queue, picked, |picked|)
    && c.remaining == (if c.selected == [] then [] else Pick(queue[..|picked|], picked, false))
    && Uniform(calls, c.selected)
    && c.operations == Operations(calls, c.selected) && c.bytes == Bytes(calls, c.selected)
  }

  /** A call that could run now was left out only because the batch is full. */
  ghost predicate Refused(calls: seq<Call>, queue: seq<nat>, active: map<nat, nat>, limits: Limits, picked: seq<bool>,
                          n: nat)
    requires Known(calls, queue) && n < |queue| && n <= |picked|
  {
    && !Dependent(calls, queue, active, picked, n)
    && !Fits(calls, calls[queue[n]], limits, ChosenBefore(calls, queue, picked, n))
  }

  ghost predicate Full(calls: seq<Call>, queue: seq<nat>, active: map<nat, nat>, limits: Limits, picked: seq<bool>)
    requires Known(calls, queue) && |picked| <= |queue|
  {
    exists n :: 0 <= n < |picked| && Refused(calls, queue, active, limits, picked, n)
  }

  /** A batch that need not wait for more calls: one did not fit, or a limit is
      reached. */
  ghost predicate Ripe(calls: seq<Call>, queue: seq<nat>, active: map<nat, nat>, limits: Limits, picked: seq<bool>,
                       chosen: seq<nat>)
    requires Known(calls, queue) && |picked| <= |queue| && Known(calls, chosen)
  {
    || Full(calls, queue, active, limits, picked)
    || (chosen != [] && (Operations(calls, chosen) >= limits.operations || Bytes(calls, chosen) >= limits.bytes))
  }

  lemma FullNext(calls: seq<Call>, queue: seq<nat>, active: map<nat, nat>, limits: Limits, picked: seq<bool>,
                 take: bool)
    requires Known(calls, queue) && |picked| < |queue|
    ensures Full(calls, queue, active, limits, picked + [take]) <==>
            Full(calls, queue, active, limits, picked) || Refused(calls, queue, active, limits, picked, |picked|)
  {
    hide Fits;
    var after := picked + [take];
    forall n: nat | n <= |picked|
      ensures Refused(calls, queue, active, limits, after, n) <==> Refused(calls, queue, active, limits, picked, n)
    {
      assert after[..n] == picked[..n];
      assert forall e :: 0 <= e < n ==> after[e] == picked[e];
    }
  }

  /** With the records of skipped calls blocked, the inner loop decides dependence. */
  lemma BlocksDecides(calls: seq<Call>, queue: seq<nat>, active: map<nat, nat>, picked: seq<bool>, blocked: set<nat>)
    requires Known(calls, queue) && |picked| < |queue| && Blocks(calls, queue, active, picked, blocked)
    ensures Dependent(calls, queue, active, picked, |picked|) <==>
            exists key :: Touches(calls[queue[|picked|]], key) && (Held(active, key) || key in blocked)
  {
  }

  lemma BlocksNext(calls: seq<Call>, queue: seq<nat>, active: map<nat, nat>, picked: seq<bool>, take: bool,
                   blocked: set<nat>, after: set<nat>)
    requires Known(calls, queue) && |picked| < |queue| && Blocks(calls, queue, active, picked, blocked)
    requires take ==> after == blocked
    requires !take ==> forall key :: key in after <==>
      key in blocked || (Touches(calls[queue[|picked|]], key) && !Held(active, key))
    ensures Blocks(calls, queue, active, picked + [take], after)
  {
    var now := picked + [take];
    assert forall e :: 0 <= e < |picked| ==> now[e] == picked[e];
    forall key
      ensures key in after <==>
        !Held(active, key) && exists e :: 0 <= e < |now| && !now[e] && Touches(calls[queue[e]], key)
    {
      if !take && Touches(calls[queue[|picked|]], key) {
        assert !now[|picked|];
      }
    }
  }

  /** Appending a call adds its size. */
  lemma SumsNext(calls: seq<Call>, ids: seq<nat>, id: nat)
    requires Known(calls, ids) && id < |calls|
    ensures Known(calls, ids + [id])
    ensures Operations(calls, ids + [id]) == Operations(calls, ids) + |calls[id].targets|
    ensures Bytes(calls, ids + [id]) == Bytes(calls, ids) + calls[id].bytes
  {
    assert (ids + [id])[..|ids|] == ids;
  }

  function Skip(c: Choice, id: nat, blocked: set<nat>): Choice {
    c.(remaining := if |c.selected| > 0 then c.remaining + [id] else c.remaining, blocked := blocked)
  }

  function Take(c: Choice, call: Call, id: nat, before: seq<nat>): Choice {
    Choice(c.selected + [id], if |c.selected| == 0 then before else c.remaining, c.blocked,
           c.operations + |call.targets|, c.bytes + call.bytes)
  }

  lemma ChoosingSkip(calls: seq<Call>, queue: seq<nat>, active: map<nat, nat>, limits: Limits, picked: seq<bool>,
                     c: Choice, blocked: set<nat>)
    requires Known(calls, queue) && |picked| < |queue| && Choosing(calls, queue, active, limits, picked, c)
    requires Greedy(calls, queue, active, limits, picked + [false])
    requires Blocks(calls, queue, active, picked + [false], blocked)
    ensures Choosing(calls, queue, active, limits, picked + [false], Skip(c, queue[|picked|], blocked))
  {
    hide Greedy, Blocks, Uniform, Operations, Bytes;
    PickNext(queue, picked, false);
    assert picked[..|picked|] == picked && (picked + [false])[..|picked| + 1] == picked + [false];
  }

  lemma ChoosingTake(calls: seq<Call>, queue: seq<nat>, active: map<nat, nat>, limits: Limits, picked: seq<bool>,
                     c: Choice)
    requires Known(calls, queue) && |picked| < |queue| && Choosing(calls, queue, active, limits, picked, c)
    requires Greedy(calls, queue, active, limits, picked + [true])
    requires Blocks(calls, queue, active, picked + [true], c.blocked)
    requires Compatible(calls, calls[queue[|picked|]], c.selected)
    ensures Choosing(calls, queue, active, limits, picked + [true],
                     Take(c, calls[queue[|picked|]], queue[|picked|], queue[..|picked|]))
  {
    hide Greedy, Blocks, Uniform, Operations, Bytes, Compatible, Pick;
    var id := queue[|picked|];
    PickNext(queue, picked, true);
    assert picked[..|picked|] == picked && (picked + [true])[..|picked| + 1] == picked + [true];
    if c.selected == [] {
      PickNone(queue[..|picked|], picked);
    }
    SumsNext(calls, c.selected, id);
    UniformNext(calls, c.selected, id);
  }

  lemma UniformNext(calls: seq<Call>, chosen: seq<nat>, id: nat)
    requires Known(calls, chosen) && id < |calls| && Uniform(calls, chosen) && Compatible(calls, calls[id], chosen)
    ensures Known(calls, chosen + [id]) && Uniform(calls, chosen + [id])
  {
  }

  /** One iteration of the loop over the queue. */
  method Consider(calls: seq<Call>, queue: seq<nat>, active: map<nat, nat>, limits: Limits, index: nat,
                  ghost picked: seq<bool>,
                  c: Choice, reason: Reason)
    returns (after: Choice, why: Reason, ghost take: bool)
    requires Known(calls, queue) && |picked| == index < |queue| && Choosing(calls, queue, active, limits, picked, c)
    requires reason == MaxWait <==> !Full(calls, queue, active, limits, picked)
    ensures Choosing(calls, queue, active, limits, picked + [take], after)
    ensures why == MaxWait <==> !Full(calls, queue, active, limits, picked + [take])
  {
    hide Dependent, Greedy, Blocks, Full;
    var id := queue[index];
    var call := calls[id];
    var dependent := IsDependent(call, active, c.blocked);
    BlocksDecides(calls, queue, active, picked, c.blocked);
    var fits := |c.selected| == 0 || (|call.targets| <= limits.operations - c.operations
        && call.bytes <= limits.bytes - c.bytes);
    var compatible := |c.selected| == 0
                      || (!call.partition.isolated && !calls[c.selected[0]].partition.isolated
                          && call.partition == calls[c.selected[0]].partition);
    take := !dependent && fits && compatible;
    assert picked[..index] == picked;
    GreedyNext(calls, queue, active, limits, picked, take);
    FullNext(calls, queue, active, limits, picked, take);
    why := reason;
    if dependent || !fits || !compatible {
      var blocked := Block(call, active, c.blocked);
      BlocksNext(calls, queue, active, picked, take, c.blocked, blocked);
      ChoosingSkip(calls, queue, active, limits, picked, c, blocked);
      after := Skip(c, id, blocked);
      if !fits && !dependent {
        why := if |call.targets| > limits.operations - c.operations then MaxOperations else MaxBytes;
      }
    } else {
      BlocksNext(calls, queue, active, picked, take, c.blocked, c.blocked);
      ChoosingTake(calls, queue, active, limits, picked, c);
      after := Take(c, call, id, queue[..index]);
    }
  }

  /** `selectReady`. The choice is the greedy one, the selected and the remaining
      calls split the queue and keep its order, and the batch counts as full
      exactly when a ready call was left out for lack of room or a limit is
      reached. */
  method SelectReady(calls: seq<Call>, queue: seq<nat>, active: map<nat, nat>, limits: Limits)
    returns (selected: seq<nat>, remaining: seq<nat>, reason: Reason, ghost picked: seq<bool>)
    requires Known(calls, queue)
    ensures Greedy(calls, queue, active, limits, picked) && |picked| == |queue|
    ensures selected == Pick(queue, picked, true) && remaining == Pick(queue, picked, false)
    ensures Known(calls, selected) && (reason == MaxWait <==> !Ripe(calls, queue, active, limits, picked, selected))
  {
    picked := [];
    var c := Choice([], [], {}, 0, 0);
    reason := MaxWait;
    for index := 0 to |queue|
      invariant |picked| == index && Choosing(calls, queue, active, limits, picked, c)
      invariant reason == MaxWait <==> !Full(calls, queue, active, limits, picked)
    {
      hide Choosing, Full;
      ghost var take;
      c, reason, take := Consider(calls, queue, active, limits, index, picked, c, reason);
      picked := picked + [take];
    }
    assert queue[..|queue|] == queue && picked[..|queue|] == picked;
    selected := c.selected;
    if |selected| == 0 {
      PickNone(queue, picked);
      return selected, queue, reason, picked;
    }
    remaining := c.remaining;
    if c.operations >= limits.operations {
      reason := MaxOperations;
    } else if c.bytes >= limits.bytes {
      reason := MaxBytes;
    }
  }
}
