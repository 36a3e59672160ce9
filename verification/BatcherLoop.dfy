/** The loops of the batcher, proved against the steps of `BatcherSteps`. */
module BatcherLoop {
  import opened BatchSelection
  import opened BatcherSteps

  function KeySet(keys: seq<nat>): set<nat> { set key | key in keys }

  /** The records of a call, one entry per operation with a valid address. */
  function Records(targets: seq<Target>): seq<nat> {
    if targets == [] then []
    else
      var n := |targets| - 1;
      Records(targets[..n]) + (if targets[n].Record? then [targets[n].key] else [])
  }

  lemma {:induction false} RecordsExact(targets: seq<Target>)
    ensures forall key :: key in Records(targets) <==> Record(key) in targets
  {
    if targets != [] {
      var n := |targets| - 1;
      RecordsExact(targets[..n]);
      assert targets == targets[..n] + [targets[n]];
    }
  }

  /** What one turn of the loop decides: the greedy choice is started as a whole
      exactly when it is not empty and is ripe or has waited long enough. */
  ghost predicate Decided(s: State, t: State, limits: Limits, expired: bool, picked: seq<bool>, started: seq<nat>)
    requires |s.calls| == |s.batch| == |s.holding| && Known(s.calls, s.queue) && |picked| == |s.queue|
  {
    PickKnown(s.calls, s.queue, picked, true);
    var chosen := Pick(s.queue, picked, true);
    && Greedy(s.calls, s.queue, s.active, limits, picked)
    && (if chosen != [] && (expired || Ripe(s.calls, s.queue, s.active, limits, picked, chosen))
        then started == chosen && t == Start(s, chosen, Pick(s.queue, picked, false))
        else started == [] && t == s)
  }

  class Batcher {
    const limits: Limits
    const maxConcurrent: nat
    var calls: seq<Call>
    var pending: seq<nat>
    var active: map<nat, nat>
    var batch: seq<nat>
    var holding: seq<set<nat>>
    var done: seq<set<nat>>
    var closed: set<nat>
    var recordsDone: seq<set<nat>>
    var batches: nat
    var running: set<nat>
    ghost var begun: set<nat>
    ghost var returned: set<nat>
    ghost var over: set<nat>

    ghost function Now(): State
      reads this
    {
      State(calls, pending, active, batch, holding, done, closed, recordsDone, batches, running, begun, returned, over)
    }

    constructor (limits: Limits, maxConcurrent: nat)
      ensures Now() == Run([]) && this.limits == limits && this.maxConcurrent == maxConcurrent
    {
      this.limits, this.maxConcurrent := limits, maxConcurrent;
      calls, pending, active, batch, holding, done := [], [], map[], [], [], [];
      closed, recordsDone, batches, running := {}, [], 0, {};
      begun, returned, over := {}, {}, {};
    }

    method Enqueue(call: Call)
      requires Inv(Now())
      modifies this
      ensures Now() == Submit(old(Now()), call) && Inv(Now())
    {
      SubmitKeeps(Now(), call);
      calls, pending, batch := calls + [call], pending + [|calls|], batch + [0];
      holding, done := holding + [{}], done + [{}];
    }

    /** The sweep at the top of the loop. */
    method Drop(cancelled: set<nat>)
      requires Inv(Now())
      modifies this`pending
      ensures Now() == Sweep(old(Now()), cancelled) && Inv(Now())
    {
      SweepKeeps(Now(), cancelled);
      hide Inv;
      var live := [];
      ghost var queue := pending;
      for n := 0 to |pending|
        invariant live == Live(queue[..n], cancelled) && pending == queue
      {
        assert queue[..n + 1][..n] == queue[..n];
        if pending[n] !in cancelled {
          live := live + [pending[n]];
        }
      }
      assert queue[..|queue|] == queue;
      pending := live;
    }

    /** The records of one selected call become active. */
    method Occupy(id: nat)
      requires id < |calls| == |holding|
      modifies this`active, this`holding
      ensures holding == old(holding)[id := Keys(calls[id])] && active == Bump(old(active), Keys(calls[id]))
    {
      var call, mine := calls[id], {};
      for n := 0 to |call.targets|
        invariant forall key :: key in mine <==> Record(key) in call.targets[..n]
        invariant active == Bump(old(active), mine) && holding == old(holding)
      {
        if call.targets[n].Record? && call.targets[n].key !in mine {
          var key := call.targets[n].key;
          BumpNext(old(active), mine, key);
          active := active[key := (if key in active then active[key] else 0) + 1];
          mine := mine + {key};
        }
      }
      assert call.targets[..|call.targets|] == call.targets;
      assert mine == Keys(call);
      holding := holding[id := mine];
    }

    /** Selects a batch and starts it, unless all slots are taken, nothing can
        run, or the batch should still grow. */
    method TryStart(expired: bool) returns (started: seq<nat>)
      requires Inv(Now())
      modifies this
      ensures Inv(Now())
      ensures maxConcurrent > 0 && |old(running)| >= maxConcurrent ==> started == [] && Now() == old(Now())
      ensures maxConcurrent == 0 || |old(running)| < maxConcurrent ==>
        exists picked :: |picked| == |old(pending)| && Decided(old(Now()), Now(), limits, expired, picked, started)
    {
      started := [];
      if maxConcurrent == 0 || |running| < maxConcurrent {
        InShape(Now());
        var selected, remaining, reason, picked := SelectReady(calls, pending, active, limits);
        ghost var s := Now();
        if |selected| > 0 && (reason != MaxWait || expired) {
          StartKeeps(s, limits, picked);
          StartSelected(selected, remaining);
          started := selected;
        }
        assert Decided(s, Now(), limits, expired, picked, started);
      }
    }

    method StartSelected(selected: seq<nat>, remaining: seq<nat>)
      requires |batch| == |holding| == |calls| && Known(calls, selected)
      modifies this
      ensures Now() == Start(old(Now()), selected, remaining)
    {
      pending, batches, running := remaining, batches + 1, running + {batches + 1};
      ghost var base := Now();
      for n := 0 to |selected|
        invariant calls == base.calls && |batch| == |holding| == |calls| && Known(calls, selected[..n])
        invariant Now() == StartAll(base, selected[..n])
      {
        hide StartOne, StartAll;
        StartAllLast(base, selected, n + 1);
        StartNext(selected[n]);
      }
      assert selected[..|selected|] == selected;
    }

    method StartNext(id: nat)
      requires id < |calls| == |batch| == |holding|
      modifies this`batch, this`active, this`holding
      ensures Now() == StartOne(old(Now()), id)
    {
      hide Bump, Keys;
      batch := batch[id := batches];
      Occupy(id);
    }

    /** `finishRecords`. */
    method FinishRecords(id: nat, keys: seq<nat>)
      requires id < |holding|
      modifies this`holding, this`recordsDone
      ensures Now() == Release(old(Now()), id, KeySet(keys))
    {
      var finished := {};
      assert holding[id] - finished == holding[id];
      for n := 0 to |keys|
        invariant finished == old(holding)[id] * KeySet(keys[..n])
        invariant holding == old(holding)[id := old(holding)[id] - finished] && recordsDone == old(recordsDone)
      {
        if keys[n] in holding[id] {
          finished := finished + {keys[n]};
          holding := holding[id := holding[id] - {keys[n]}];
          assert holding[id] == old(holding)[id] - finished;
        }
      }
      assert keys[..|keys|] == keys;
      if finished != {} {
        recordsDone := recordsDone + [finished];
      } else {
        assert holding[id] == old(holding)[id] && holding == old(holding);
      }
    }

    /** `completeCall`. */
    method CompleteCall(id: nat)
      requires id < |holding| == |calls|
      modifies this`closed, this`holding, this`recordsDone
      ensures Now() == Complete(old(Now()), id)
    {
      closed := closed + {id};
      RecordsExact(calls[id].targets);
      var keys := Records(calls[id].targets);
      assert KeySet(keys) == Keys(calls[id]) by {
        assert forall key :: key in Keys(calls[id]) <==> Record(key) in calls[id].targets;
      }
      FinishRecords(id, keys);
    }

    /** The loop receives a release and lowers the use counts. */
    method ReceiveDone(m: nat)
      requires Inv(Now()) && m < |recordsDone|
      modifies this`active, this`recordsDone
      ensures Now() == BatcherSteps.Receive(old(Now()), m) && Inv(Now())
    {
      ReceiveKeeps(Now(), m);
      var keys := recordsDone[m];
      ghost var was := active;
      AllUsed(Now(), m);
      var rest := keys;
      while rest != {}
        invariant rest <= keys && active == Lower(was, keys - rest) && recordsDone == old(recordsDone)
        invariant forall key :: key in rest ==> key in active && active[key] == was[key] && active[key] > 0
      {
        var key :| key in rest;
        assert keys - (rest - {key}) == keys - rest + {key};
        LowerNext(was, keys - rest, key);
        active := active[key := active[key] - 1];
        if active[key] == 0 {
          active := active - {key};
        }
        rest := rest - {key};
      }
      assert keys - rest == keys;
      recordsDone := recordsDone[..m] + recordsDone[m + 1..];
    }
  }

  lemma BumpNext(active: map<nat, nat>, keys: set<nat>, key: nat)
    requires key !in keys
    ensures Bump(active, keys + {key}) == Bump(active, keys)[key := Uses(Bump(active, keys), key) + 1]
  {
  }

  lemma LowerNext(active: map<nat, nat>, keys: set<nat>, key: nat)
    requires key !in keys && key in active && active[key] > 0
    ensures Lower(active, keys + {key})
            == if active[key] == 1 then Lower(active, keys) - {key} else Lower(active, keys)[key := active[key] - 1]
  {
  }

  /** A release under way is still counted. */
  lemma AllUsed(s: State, m: nat)
    requires Inv(s) && m < |s.messages|
    ensures forall key :: key in s.messages[m] ==> key in s.active && s.active[key] > 0
  {
    forall key | key in s.messages[m] ensures key in s.active && s.active[key] > 0 {
      CountMember(s.messages, m, key);
    }
  }
}
