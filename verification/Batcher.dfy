/** The write batcher's run loop (internal/service/batcher.go) as a step system:
    calls are submitted, cancelled, started in batches, finish operation by
    operation, and give their records back through a channel. */
module BatcherSteps {
  import opened BatchSelection

  /** `holding` is each call's `pendingRecords`; `messages` are the released
      records that the loop has not received yet. Call `i` was the `i`-th to be
      submitted; `batch[i]` is the number of the batch it started in, from 1.
      `begun` are the calls whose write was called, `returned` those whose write
      has returned, and `over` the batches whose execution has returned. */
  datatype State = State(
    calls: seq<Call>,
    queue: seq<nat>,
    active: map<nat, nat>,
    batch: seq<nat>,
    holding: seq<set<nat>>,
    done: seq<set<nat>>,
    closed: set<nat>,
    messages: seq<set<nat>>,
    batches: nat,
    running: set<nat>,
    begun: set<nat>,
    returned: set<nat>,
    over: set<nat>)

  function Keys(call: Call): set<nat> {
    set t | t in call.targets && t.Record? :: t.key
  }

  function Uses(active: map<nat, nat>, key: nat): nat { if key in active then active[key] else 0 }

  // ---------------------------------------------------------------------
  // Counting the holders of a record
  // ---------------------------------------------------------------------

  function Count(sets: seq<set<nat>>, key: nat): nat {
    if sets == [] then 0
    else Count(sets[..|sets| - 1], key) + (if key in sets[|sets| - 1] then 1 else 0)
  }

  lemma {:induction false} CountUpdate(sets: seq<set<nat>>, i: nat, keys: set<nat>, key: nat)
    requires i < |sets|
    ensures Count(sets[i := keys], key) + (if key in sets[i] then 1 else 0)
            == Count(sets, key) + (if key in keys then 1 else 0)
  {
    var n := |sets| - 1;
    if i < n {
      CountUpdate(sets[..n], i, keys, key);
      assert sets[i := keys][..n] == sets[..n][i := keys];
    } else {
      assert sets[i := keys][..n] == sets[..n];
    }
  }

  lemma {:induction false} CountMember(sets: seq<set<nat>>, i: nat, key: nat)
    requires i < |sets| && key in sets[i]
    ensures Count(sets, key) > 0
  {
    if i < |sets| - 1 {
      CountMember(sets[..|sets| - 1], i, key);
    }
  }

  lemma CountAppend(sets: seq<set<nat>>, keys: set<nat>, key: nat)
    ensures Count(sets + [keys], key) == Count(sets, key) + (if key in keys then 1 else 0)
  {
    assert (sets + [keys])[..|sets|] == sets;
  }

  lemma {:induction false} CountConcat(a: seq<set<nat>>, b: seq<set<nat>>, key: nat)
    ensures Count(a + b, key) == Count(a, key) + Count(b, key)
  {
    if b == [] {
      assert a + b == a;
    } else {
      var n := |b| - 1;
      CountConcat(a, b[..n], key);
      assert (a + b)[..|a + b| - 1] == a + b[..n];
    }
  }

  lemma CountRemove(sets: seq<set<nat>>, i: nat, key: nat)
    requires i < |sets|
    ensures Count(sets[..i] + sets[i + 1..], key) + (if key in sets[i] then 1 else 0) == Count(sets, key)
  {
    hide Count;
    var a, b := sets[..i], sets[i + 1..];
    assert sets == a + [sets[i]] + b;
    CountConcat(a + [sets[i]], b, key);
    CountAppend(a, sets[i], key);
    CountConcat(a, b, key);
  }

  // ---------------------------------------------------------------------
  // Invariant
  // ---------------------------------------------------------------------

  ghost predicate Shaped(s: State) {
    && |s.batch| == |s.holding| == |s.done| == |s.calls|
    && Known(s.calls, s.queue)
    && (forall j, k :: 0 <= j < k < |s.queue| ==> s.queue[j] < s.queue[k])
    && (forall k :: 0 <= k < |s.queue| ==> s.batch[s.queue[k]] == 0)
    && (forall i :: 0 <= i < |s.calls| ==> s.batch[i] <= s.batches)
    && (forall i :: 0 <= i < |s.calls| ==> s.holding[i] <= Keys(s.calls[i]))
    && (forall i :: 0 <= i < |s.calls| && s.holding[i] != {} ==> s.batch[i] in s.running)
    && (forall b :: b in s.running ==> 0 < b <= s.batches)
  }

  /** The use count of a record is its holders plus the releases under way. */
  ghost predicate Counted(s: State) {
    forall key :: Uses(s.active, key) == Count(s.holding, key) + Count(s.messages, key)
  }

  /** Once a later batch on a record has started, no earlier one holds it. */
  ghost predicate Exclusive(s: State)
    requires |s.batch| == |s.holding| == |s.calls|
  {
    forall i, j :: 0 <= i < |s.calls| && 0 <= j < |s.calls| && 0 < s.batch[i] < s.batch[j] ==>
      forall key :: Touches(s.calls[i], key) && Touches(s.calls[j], key) ==> key !in s.holding[i]
  }

  /** Calls that share a record start in submission order. */
  ghost predicate Ordered(s: State)
    requires |s.batch| == |s.calls|
  {
    forall i, j :: 0 <= i < j < |s.calls| && s.batch[j] > 0 && Share(s.calls[i], s.calls[j]) ==>
      i !in s.queue && s.batch[i] <= s.batch[j]
  }

  predicate AllDone(call: Call, done: set<nat>, key: nat) {
    forall o :: 0 <= o < |call.targets| && call.targets[o] == Record(key) ==> o in done
  }

  /** A started call gives a record up only when all its operations on it have
      final results, it was answered, or its batch is over. */
  ghost predicate Final(s: State)
    requires |s.batch| == |s.holding| == |s.done| == |s.calls|
  {
    forall i, key :: 0 <= i < |s.calls| && s.batch[i] > 0 && Touches(s.calls[i], key) && key !in s.holding[i] ==>
      i in s.closed || s.batch[i] in s.over || AllDone(s.calls[i], s.done[i], key)
  }

  /** A call gives a record up as soon as that is the case, and a call that has
      not started has no results. */
  ghost predicate Prompt(s: State)
    requires |s.batch| == |s.holding| == |s.done| == |s.calls|
  {
    && (forall i, key :: 0 <= i < |s.calls| && key in s.holding[i] ==>
          i !in s.closed && !AllDone(s.calls[i], s.done[i], key))
    && (forall i :: 0 <= i < |s.calls| && s.batch[i] == 0 ==> s.done[i] == {} && i !in s.closed)
    && (forall i :: i in s.closed ==> i < |s.calls|)
  }

  ghost predicate AllFinal(call: Call, done: set<nat>) {
    forall o :: 0 <= o < |call.targets| ==> o in done
  }

  /** A call is answered before its write begins, after its write has returned, or
      when all its operations are final; a batch is over when no write of its calls
      is running; and results come only from a write. */
  ghost predicate Staged(s: State)
    requires |s.batch| == |s.done| == |s.calls|
  {
    && (forall i :: i in s.begun ==> i < |s.calls| && s.batch[i] > 0)
    && s.returned <= s.begun
    && (forall i :: i in s.begun && s.batch[i] in s.over ==> i in s.returned)
    && (forall i :: i in s.closed && i in s.begun && i !in s.returned ==> AllFinal(s.calls[i], s.done[i]))
    && (forall b :: b in s.over ==> 0 < b <= s.batches)
    && (forall i :: 0 <= i < |s.calls| && i !in s.begun ==> s.done[i] == {})
  }

  ghost predicate Inv(s: State) {
    Shaped(s) && Counted(s) && Exclusive(s) && Ordered(s) && Final(s) && Prompt(s) && Staged(s)
  }

  /** The invariant without promptness, while a step is under way. */
  ghost predicate Core(s: State) {
    Shaped(s) && Counted(s) && Exclusive(s) && Ordered(s) && Final(s)
  }

  // ---------------------------------------------------------------------
  // Steps
  // ---------------------------------------------------------------------

  function Submit(s: State, call: Call): State {
    s.(calls := s.calls + [call], queue := s.queue + [|s.calls|], batch := s.batch + [0],
       holding := s.holding + [{}], done := s.done + [{}])
  }

  function Live(queue: seq<nat>, gone: set<nat>): seq<nat> {
    if queue == [] then []
    else
      var n := |queue| - 1;
      Live(queue[..n], gone) + (if queue[n] in gone then [] else [queue[n]])
  }

  /** The sweep that drops cancelled calls from the queue. */
  function Sweep(s: State, gone: set<nat>): State {
    s.(queue := Live(s.queue, gone))
  }

  function Bump(active: map<nat, nat>, keys: set<nat>): map<nat, nat> {
    map key | key in active.Keys + keys :: Uses(active, key) + (if key in keys then 1 else 0)
  }

  function StartOne(s: State, id: nat): State
    requires id < |s.calls| == |s.batch| == |s.holding|
  {
    s.(batch := s.batch[id := s.batches], holding := s.holding[id := Keys(s.calls[id])],
       active := Bump(s.active, Keys(s.calls[id])))
  }

  function StartAll(s: State, ids: seq<nat>): (t: State)
    requires |s.calls| == |s.batch| == |s.holding| && Known(s.calls, ids)
    ensures t.calls == s.calls && |t.batch| == |t.holding| == |s.calls|
  {
    if ids == [] then s else StartOne(StartAll(s, ids[..|ids| - 1]), ids[|ids| - 1])
  }

  /** The queue shortened and a new batch number taken. */
  function Opened(s: State, remaining: seq<nat>): State {
    s.(queue := remaining, batches := s.batches + 1, running := s.running + {s.batches + 1})
  }

  /** Starts a batch of the selected calls. */
  function Start(s: State, selected: seq<nat>, remaining: seq<nat>): State
    requires |s.calls| == |s.batch| == |s.holding| && Known(s.calls, selected)
  {
    StartAll(Opened(s, remaining), selected)
  }

  /** `finishRecords`: gives up those of the keys that the call still holds. */
  function Release(s: State, id: nat, keys: set<nat>): State
    requires id < |s.holding|
  {
    var finished := s.holding[id] * keys;
    if finished == {} then s
    else s.(holding := s.holding[id := s.holding[id] - finished], messages := s.messages + [finished])
  }

  /** `completeCall`: the call has its answer and holds nothing any more. */
  function Complete(s: State, id: nat): State
    requires id < |s.holding| == |s.calls|
  {
    Release(s.(closed := s.closed + {id}), id, Keys(s.calls[id]))
  }

  /** One operation is final; its record is given up if that was the last one. */
  function Settling(s: State, id: nat, o: nat): State
    requires id < |s.holding| == |s.calls| == |s.done| && o < |s.calls[id].targets|
  {
    var call, done := s.calls[id], s.done[id] + {o};
    var t := s.(done := s.done[id := done]);
    if call.targets[o].Record? && AllDone(call, done, call.targets[o].key)
    then Release(t, id, {call.targets[o].key}) else t
  }

  /** One operation of a running call gets its final result. */
  function Finish(s: State, id: nat, o: nat): State
    requires id < |s.holding| == |s.calls| == |s.done| && o < |s.calls[id].targets|
  {
    if o in s.done[id] then s
    else if forall p :: 0 <= p < |s.calls[id].targets| ==> p in s.done[id] + {o} then Complete(Settling(s, id, o), id)
    else Settling(s, id, o)
  }

  function Lower(active: map<nat, nat>, keys: set<nat>): map<nat, nat> {
    map key | key in active && (key in keys ==> active[key] > 1) :: if key in keys then active[key] - 1 else active[key]
  }

  /** The loop receives one release. */
  function Receive(s: State, m: nat): State
    requires m < |s.messages|
  {
    s.(active := Lower(s.active, s.messages[m]), messages := s.messages[..m] + s.messages[m + 1..])
  }

  /** A batch ends after its calls have given everything back. */
  function End(s: State, b: nat): State {
    s.(running := s.running - {b})
  }

  // ---------------------------------------------------------------------
  // Every step keeps the invariant
  // ---------------------------------------------------------------------

  lemma SubmitShaped(s: State, call: Call)
    requires Shaped(s) && Counted(s)
    ensures Shaped(Submit(s, call)) && Counted(Submit(s, call))
  {
    var t := Submit(s, call);
    forall key ensures Uses(t.active, key) == Count(t.holding, key) + Count(t.messages, key) {
      CountAppend(s.holding, {}, key);
    }
    hide Counted, Count, Uses;
  }

  lemma SubmitOrdered(s: State, call: Call)
    requires Shaped(s) && Exclusive(s) && Ordered(s)
    ensures Exclusive(Submit(s, call)) && Ordered(Submit(s, call))
  {
  }

  lemma SubmitFinal(s: State, call: Call)
    requires Shaped(s) && Final(s) && Prompt(s)
    ensures Final(Submit(s, call)) && Prompt(Submit(s, call))
  {
  }

  lemma SubmitStaged(s: State, call: Call)
    requires Shaped(s) && Staged(s) && Prompt(s)
    ensures Staged(Submit(s, call))
  {
    hide AllFinal;
  }

  lemma SubmitKeeps(s: State, call: Call)
    requires Inv(s)
    ensures Inv(Submit(s, call))
  {
    hide Shaped, Counted, Exclusive, Ordered, Final, Prompt, Staged;
    SubmitShaped(s, call);
    SubmitOrdered(s, call);
    SubmitFinal(s, call);
    InShape(s);
    SubmitStaged(s, call);
  }

  lemma {:induction false} LiveSub(queue: seq<nat>, gone: set<nat>)
    requires forall j, k :: 0 <= j < k < |queue| ==> queue[j] < queue[k]
    ensures var live := Live(queue, gone);
            && (forall j, k :: 0 <= j < k < |live| ==> live[j] < live[k])
            && (forall id :: id in live <==> id in queue && id !in gone)
  {
    if queue != [] {
      var n := |queue| - 1;
      LiveSub(queue[..n], gone);
      var before, live := Live(queue[..n], gone), Live(queue, gone);
      forall j, k | 0 <= j < k < |live| ensures live[j] < live[k] {
        assert live[j] == before[j] && before[j] in before;
      }
      assert queue == queue[..n] + [queue[n]];
    }
  }

  lemma SweepKeeps(s: State, gone: set<nat>)
    requires Inv(s)
    ensures Inv(Sweep(s, gone))
  {
    LiveSub(s.queue, gone);
    var t := Sweep(s, gone);
    forall k | 0 <= k < |t.queue| ensures t.queue[k] < |s.calls| && s.batch[t.queue[k]] == 0 {
      assert t.queue[k] in s.queue;
    }
  }

  lemma ReleaseCounted(s: State, id: nat, keys: set<nat>)
    requires id < |s.holding| && Counted(s)
    ensures Counted(Release(s, id, keys))
  {
    var finished := s.holding[id] * keys;
    var t := Release(s, id, keys);
    if finished != {} {
      forall key ensures Uses(t.active, key) == Count(t.holding, key) + Count(t.messages, key) {
        CountUpdate(s.holding, id, s.holding[id] - finished, key);
        CountAppend(s.messages, finished, key);
      }
    }
  }

  /** Giving up a record is allowed once its operations are final. */
  lemma ReleaseKeeps(s: State, id: nat, keys: set<nat>)
    requires Core(s) && id < |s.calls|
    requires id in s.closed || s.batch[id] in s.over || forall key :: key in keys ==>
        AllDone(s.calls[id], s.done[id], key)
    ensures Core(Release(s, id, keys))
  {
    ReleaseCounted(s, id, keys);
  }

  lemma CompleteCore(s: State, id: nat)
    requires Core(s) && id < |s.calls|
    ensures Core(Complete(s, id)) && Complete(s, id).holding[id] == {}
  {
    var t := s.(closed := s.closed + {id});
    assert Core(t);
    ReleaseKeeps(t, id, Keys(s.calls[id]));
  }

  /** Promptness of every call but one. */
  ghost predicate PromptBut(s: State, id: nat)
    requires |s.batch| == |s.holding| == |s.done| == |s.calls|
  {
    && (forall i, key :: 0 <= i < |s.calls| && i != id && key in s.holding[i] ==>
          i !in s.closed && !AllDone(s.calls[i], s.done[i], key))
    && (forall i :: 0 <= i < |s.calls| && s.batch[i] == 0 ==> s.done[i] == {} && i !in s.closed)
    && (forall i :: i in s.closed ==> i < |s.calls|)
  }

  lemma CompletePrompt(s: State, id: nat)
    requires |s.batch| == |s.holding| == |s.done| == |s.calls| && id < |s.calls|
    requires PromptBut(s, id) && s.batch[id] > 0 && s.holding[id] <= Keys(s.calls[id])
    ensures Prompt(Complete(s, id))
  {
  }

  /** Only the answer, the holds and the messages change. */
  lemma CompleteSame(s: State, id: nat)
    requires id < |s.holding| == |s.calls|
    ensures var t := Complete(s, id);
            t == s.(closed := s.closed + {id}, holding := t.holding, messages := t.messages)
  {
  }

  lemma StagedClosed(s: State, id: nat)
    requires |s.batch| == |s.done| == |s.calls| && id < |s.holding| == |s.calls| && Staged(s)
    requires id in s.begun && id !in s.returned ==> AllFinal(s.calls[id], s.done[id])
    ensures Staged(Complete(s, id))
  {
    CompleteSame(s, id);
    hide AllFinal, Complete;
  }

  lemma CompleteKeeps(s: State, id: nat)
    requires Inv(s) && id < |s.calls| && s.batch[id] > 0
    requires id in s.begun && id !in s.returned ==> AllFinal(s.calls[id], s.done[id])
    ensures Inv(Complete(s, id)) && Complete(s, id).holding[id] == {}
  {
    CompleteCore(s, id);
    CompletePrompt(s, id);
    StagedClosed(s, id);
  }

  lemma FinishCore(s: State, id: nat, o: nat)
    requires Core(s) && id < |s.calls| && o < |s.calls[id].targets|
    ensures Core(Settling(s, id, o))
  {
    var call, done := s.calls[id], s.done[id] + {o};
    var t := s.(done := s.done[id := done]);
    assert Core(t);
    if call.targets[o].Record? && AllDone(call, done, call.targets[o].key) {
      ReleaseKeeps(t, id, {call.targets[o].key});
    }
  }

  /** One more result settles at most the record it is on. */
  lemma FinishPrompt(s: State, id: nat, o: nat)
    requires Inv(s) && id < |s.calls| && s.batch[id] > 0 && o < |s.calls[id].targets|
    ensures Prompt(Settling(s, id, o))
  {
    hide Counted, Exclusive, Ordered, Final;
    var call, done := s.calls[id], s.done[id] + {o};
    forall key | call.targets[o] != Record(key) && !AllDone(call, s.done[id], key) ensures !AllDone(call, done, key) {
      var p :| 0 <= p < |call.targets| && call.targets[p] == Record(key) && p !in s.done[id];
      assert p !in done;
    }
    var t := Settling(s, id, o);
    assert t.done[id] == done && t.closed == s.closed && t.holding[id] <= s.holding[id];
    assert forall i :: 0 <= i < |s.calls| && i != id ==> t.holding[i] == s.holding[i] && t.done[i] == s.done[i];
    if call.targets[o].Record? && AllDone(call, done, call.targets[o].key) {
      var key := call.targets[o].key;
      assert key in s.holding[id] ==> key in s.holding[id] * {key};
      assert key !in t.holding[id];
    }
    hide Settling, AllDone;
    forall i, key | 0 <= i < |s.calls| && key in t.holding[i]
      ensures i !in t.closed && !AllDone(t.calls[i], t.done[i], key) {
      assert key in s.holding[i];
      if i == id && call.targets[o] == Record(key) {
        assert call.targets[o].key == key;
      }
    }
  }

  lemma FinishStaged(s: State, id: nat, o: nat)
    requires |s.batch| == |s.done| == |s.holding| == |s.calls| && Staged(s) && id in s.begun
        && o < |s.calls[id].targets|
    ensures Staged(Settling(s, id, o))
  {
    var t := Settling(s, id, o);
    assert t == s.(done := s.done[id := s.done[id] + {o}], holding := t.holding, messages := t.messages);
    hide Settling;
    assert AllFinal(s.calls[id], s.done[id]) ==> AllFinal(s.calls[id], s.done[id] + {o});
  }

  lemma FinishKeeps(s: State, id: nat, o: nat)
    requires Inv(s) && id in s.begun && o < |s.calls[id].targets|
    ensures Inv(Finish(s, id, o))
  {
    if o !in s.done[id] {
      FinishCore(s, id, o);
      FinishPrompt(s, id, o);
      FinishStaged(s, id, o);
      if forall p :: 0 <= p < |s.calls[id].targets| ==> p in s.done[id] + {o} {
        CompleteKeeps(Settling(s, id, o), id);
      }
    }
  }

  lemma ReceiveKeeps(s: State, m: nat)
    requires Inv(s) && m < |s.messages|
    ensures Inv(Receive(s, m))
  {
    var t := Receive(s, m);
    forall key ensures Uses(t.active, key) == Count(t.holding, key) + Count(t.messages, key) {
      CountRemove(s.messages, m, key);
    }
  }

  /** The write of a call is called. */
  function Begin(s: State, id: nat): State { s.(begun := s.begun + {id}) }

  /** The write of a call has returned. */
  function Return(s: State, id: nat): State { s.(returned := s.returned + {id}) }

  /** The execution of a batch has returned. */
  function Leave(s: State, b: nat): State { s.(over := s.over + {b}) }

  ghost predicate Beginnable(s: State, id: nat)
    requires |s.batch| == |s.calls|
  {
    id < |s.calls| && s.batch[id] in s.running && s.batch[id] !in s.over && id !in s.begun && id !in s.closed
  }

  /** No write of a call of the batch is running. */
  ghost predicate Still(s: State, b: nat)
    requires |s.batch| == |s.calls|
  {
    forall i :: 0 <= i < |s.calls| && s.batch[i] == b && i in s.begun ==> i in s.returned
  }

  lemma StageKeeps(s: State, t: State)
    requires Inv(s) && t == s.(begun := t.begun, returned := t.returned, over := t.over) && s.over <= t.over
        && Staged(t)
    ensures Inv(t)
  {
    hide Touches, AllDone, Count, Uses, Keys, AllFinal;
  }

  lemma BeginKeeps(s: State, id: nat)
    requires Inv(s) && Beginnable(s, id)
    ensures Inv(Begin(s, id))
  {
    StageKeeps(s, Begin(s, id));
  }

  lemma ReturnKeeps(s: State, id: nat)
    requires Inv(s) && id in s.begun
    ensures Inv(Return(s, id))
  {
    StageKeeps(s, Return(s, id));
  }

  lemma LeaveKeeps(s: State, b: nat)
    requires Inv(s) && b in s.running && Still(s, b)
    ensures Inv(Leave(s, b))
  {
    StageKeeps(s, Leave(s, b));
  }

  /** What is given up when the batch is over. */
  lemma ClearKeeps(s: State, id: nat)
    requires Inv(s) && id < |s.calls| && s.batch[id] in s.over
    ensures Inv(Release(s, id, Keys(s.calls[id]))) && Release(s, id, Keys(s.calls[id])).holding[id] == {}
  {
    ReleaseKeeps(s, id, Keys(s.calls[id]));
  }

  lemma EndKeeps(s: State, b: nat)
    requires Inv(s) && forall i :: 0 <= i < |s.calls| && s.batch[i] == b ==> s.holding[i] == {}
    ensures Inv(End(s, b))
  {
  }

  /** A call that the newest batch may take: it has not started, nothing it
      needs is held by an older batch, and it passes nobody. */
  ghost predicate Startable(s: State, id: nat)
    requires |s.batch| == |s.holding| == |s.calls|
  {
    && id < |s.calls| && id !in s.queue && s.batch[id] == 0
    && (forall i, key :: 0 <= i < |s.calls| && key in s.holding[i] && Touches(s.calls[id], key) ==>
        s.batch[i] == s.batches)
    && (forall j :: id < j < |s.calls| && Share(s.calls[id], s.calls[j]) ==> s.batch[j] == 0)
    && (forall i :: 0 <= i < id && Share(s.calls[i], s.calls[id]) ==> i !in s.queue)
  }

  lemma StartOneCounted(s: State, id: nat)
    requires Inv(s) && id < |s.calls| && s.batch[id] == 0
    ensures Counted(StartOne(s, id))
  {
    var t := StartOne(s, id);
    assert s.holding[id] == {};
    forall key ensures Uses(t.active, key) == Count(t.holding, key) + Count(t.messages, key) {
      CountUpdate(s.holding, id, Keys(s.calls[id]), key);
    }
  }

  lemma StartOneStaged(s: State, id: nat)
    requires |s.batch| == |s.holding| == |s.done| == |s.calls| && Staged(s)
    requires id < |s.calls| && s.batch[id] == 0 && s.batches > 0 && s.batches !in s.over
    ensures Staged(StartOne(s, id))
  {
    hide AllFinal, Bump, Keys;
  }

  lemma StartOneShaped(s: State, id: nat)
    requires Shaped(s) && s.batches in s.running && id < |s.calls| && id !in s.queue
    ensures Shaped(StartOne(s, id))
  {
    hide Bump, Keys;
  }

  lemma StartOneExclusive(s: State, id: nat)
    requires Shaped(s) && Exclusive(s) && Startable(s, id)
    ensures Exclusive(StartOne(s, id))
  {
    hide Bump;
  }

  lemma StartOneOrdered(s: State, id: nat)
    requires Shaped(s) && Ordered(s) && Startable(s, id)
    ensures Ordered(StartOne(s, id))
  {
    hide Bump, Keys, Share;
  }

  lemma StartOneFinal(s: State, id: nat)
    requires |s.batch| == |s.holding| == |s.done| == |s.calls| && Final(s) && id < |s.calls|
    ensures Final(StartOne(s, id))
  {
    hide Bump, AllDone;
  }

  lemma StartOnePrompt(s: State, id: nat)
    requires |s.batch| == |s.holding| == |s.done| == |s.calls| && Prompt(s) && id < |s.calls| && s.batch[id] == 0
        && s.batches > 0
    ensures Prompt(StartOne(s, id))
  {
    hide Bump;
    forall key | key in Keys(s.calls[id]) ensures !AllDone(s.calls[id], {}, key) {
      var p :| 0 <= p < |s.calls[id].targets| && s.calls[id].targets[p] == Record(key);
    }
  }

  lemma StartOneKeeps(s: State, id: nat)
    requires Inv(s) && s.batches in s.running && s.batches !in s.over && Startable(s, id)
    ensures Inv(StartOne(s, id))
  {
    StartOneShaped(s, id);
    StartOneCounted(s, id);
    StartOneExclusive(s, id);
    StartOneOrdered(s, id);
    StartOneFinal(s, id);
    StartOnePrompt(s, id);
    StartOneStaged(s, id);
    hide Shaped, Counted, Exclusive, Ordered, Final, Prompt, Staged, StartOne;
  }

  /** Starting one call leaves the later ones startable. */
  lemma StartOneLeaves(s: State, id: nat, other: nat)
    requires Inv(s) && Startable(s, id) && Startable(s, other) && id < other
    ensures Startable(StartOne(s, id), other)
  {
    hide Counted, Exclusive, Ordered, Final;
  }

  lemma {:induction false} StartAllKeeps(s: State, ids: seq<nat>, n: nat)
    requires Inv(s) && s.batches in s.running && s.batches !in s.over && Known(s.calls, ids) && n <= |ids|
    requires forall j, k :: 0 <= j < k < |ids| ==> ids[j] < ids[k]
    requires forall k :: 0 <= k < |ids| ==> Startable(s, ids[k])
    ensures var t := StartAll(s, ids[..n]);
            && Inv(t) && t.batches == s.batches && t.running == s.running && t.over == s.over
            && (forall k :: n <= k < |ids| ==> Startable(t, ids[k]))
  {
    if n > 0 {
      hide Inv, Startable;
      StartAllKeeps(s, ids, n - 1);
      StartAllLast(s, ids, n);
      hide StartAll, StartOne;
      var before := StartAll(s, ids[..n - 1]);
      InShape(before);
      StartOneKeeps(before, ids[n - 1]);
      forall k | n <= k < |ids| ensures Startable(StartOne(before, ids[n - 1]), ids[k]) {
        StartOneLeaves(before, ids[n - 1], ids[k]);
      }
    }
  }

  lemma StartAllLast(s: State, ids: seq<nat>, n: nat)
    requires |s.calls| == |s.batch| == |s.holding| && Known(s.calls, ids) && 0 < n <= |ids|
    ensures StartAll(s, ids[..n]) == StartOne(StartAll(s, ids[..n - 1]), ids[n - 1])
    ensures StartAll(s, ids[..n]).batches == StartAll(s, ids[..n - 1]).batches
    ensures StartAll(s, ids[..n]).running == StartAll(s, ids[..n - 1]).running
    ensures StartAll(s, ids[..n]).over == StartAll(s, ids[..n - 1]).over
  {
    assert ids[..n][..n - 1] == ids[..n - 1];
  }

  lemma InShape(s: State)
    requires Inv(s)
    ensures |s.batch| == |s.holding| == |s.done| == |s.calls| && Known(s.calls, s.queue)
  {
  }

  lemma {:induction false} PickFrom(queue: seq<nat>, picked: seq<bool>, which: bool)
    requires |queue| == |picked|
    ensures forall id :: id in Pick(queue, picked, which) ==> id in queue
  {
    if queue != [] {
      var n := |queue| - 1;
      PickFrom(queue[..n], picked[..n], which);
      assert queue == queue[..n] + [queue[n]];
    }
  }

  ghost predicate Increasing(s: seq<nat>) { forall j, k :: 0 <= j < k < |s| ==> s[j] < s[k] }

  lemma {:induction false} PickIncreasing(queue: seq<nat>, picked: seq<bool>, which: bool)
    requires |queue| == |picked| && Increasing(queue)
    ensures Increasing(Pick(queue, picked, which))
  {
    if queue != [] {
      var n := |queue| - 1;
      PickIncreasing(queue[..n], picked[..n], which);
      PickFrom(queue[..n], picked[..n], which);
      var before := Pick(queue[..n], picked[..n], which);
      forall j | 0 <= j < |before| ensures before[j] < queue[n] {
        assert before[j] in queue[..n];
      }
    }
  }

  lemma {:induction false} PickExact(queue: seq<nat>, picked: seq<bool>, which: bool, k: nat)
    requires |queue| == |picked| && k < |queue| && forall i, j :: 0 <= i < j < |queue| ==> queue[i] < queue[j]
    ensures queue[k] in Pick(queue, picked, which) <==> picked[k] == which
  {
    var n := |queue| - 1;
    PickFrom(queue[..n], picked[..n], which);
    if k < n {
      PickExact(queue[..n], picked[..n], which, k);
    } else {
      assert queue[n] !in queue[..n];
    }
  }

  lemma PickMembers(queue: seq<nat>, picked: seq<bool>, which: bool)
    requires |queue| == |picked| && forall j, k :: 0 <= j < k < |queue| ==> queue[j] < queue[k]
    ensures var p := Pick(queue, picked, which);
            && (forall j, k :: 0 <= j < k < |p| ==> p[j] < p[k])
            && (forall k :: 0 <= k < |queue| ==> (queue[k] in p <==> picked[k] == which))
            && (forall id :: id in p ==> id in queue)
  {
    hide Pick;
    assert Increasing(queue);
    PickIncreasing(queue, picked, which);
    PickFrom(queue, picked, which);
    forall k | 0 <= k < |queue| ensures queue[k] in Pick(queue, picked, which) <==> picked[k] == which {
      PickExact(queue, picked, which, k);
    }
  }

  lemma HoldersCounted(s: State)
    requires Inv(s)
    ensures forall i, key :: 0 <= i < |s.calls| && key in s.holding[i] ==> Held(s.active, key)
  {
    forall i, key | 0 <= i < |s.calls| && key in s.holding[i] ensures Held(s.active, key) {
      CountMember(s.holding, i, key);
    }
  }

  /** Every call that the choice passes over keeps the later ones on its records. */
  lemma NobodyPassed(s: State, picked: seq<bool>, k: nat)
    requires Inv(s) && |picked| == |s.queue| && k < |s.queue|
    requires !Dependent(s.calls, s.queue, s.active, picked, k)
    ensures forall i :: i in Pick(s.queue, picked, false) && i < s.queue[k] ==> !Share(s.calls[i], s.calls[s.queue[k]])
  {
    hide Counted, Exclusive, Ordered, Final;
    PickMembers(s.queue, picked, false);
    forall i | i in Pick(s.queue, picked, false) && i < s.queue[k]
      ensures !Share(s.calls[i], s.calls[s.queue[k]])
    {
      var e :| 0 <= e < |s.queue| && s.queue[e] == i;
      assert e < k && !picked[e];
    }
  }

  /** A call that the greedy choice takes may start. */
  lemma ChosenStartable(s: State, limits: Limits, picked: seq<bool>, k: nat)
    requires Inv(s) && |picked| == |s.queue| && Greedy(s.calls, s.queue, s.active, limits, picked)
    requires k < |s.queue| && picked[k]
    ensures Startable(Opened(s, Pick(s.queue, picked, false)), s.queue[k])
  {
    assert !Dependent(s.calls, s.queue, s.active, picked, k);
    hide Greedy, Counted, Exclusive, Final;
    PickMembers(s.queue, picked, false);
    HoldersCounted(s);
    NobodyPassed(s, picked, k);
  }

  lemma OpenedShaped(s: State, picked: seq<bool>)
    requires Shaped(s) && |picked| == |s.queue|
    ensures Shaped(Opened(s, Pick(s.queue, picked, false)))
  {
    PickMembers(s.queue, picked, false);
    var t := Opened(s, Pick(s.queue, picked, false));
    forall k | 0 <= k < |t.queue| ensures t.queue[k] < |s.calls| && s.batch[t.queue[k]] == 0 {
      assert t.queue[k] in s.queue;
    }
  }

  /** Holds, counts and results do not depend on what waits. */
  lemma QueueApart(s: State, t: State)
    requires |s.batch| == |s.holding| == |s.done| == |s.calls|
    requires Counted(s) && Exclusive(s) && Final(s) && Prompt(s) && Staged(s)
    requires t == s.(queue := t.queue, batches := t.batches, running := t.running) && s.batches <= t.batches
    ensures Counted(t) && Exclusive(t) && Final(t) && Prompt(t) && Staged(t)
  {
    hide Touches, AllDone, Count, Uses, AllFinal;
  }

  lemma ShorterQueue(s: State, t: State)
    requires |s.batch| == |s.calls| && Ordered(s) && forall i :: i in t.queue ==> i in s.queue
    requires t == s.(queue := t.queue, batches := t.batches, running := t.running)
    ensures Ordered(t)
  {
    hide Share;
  }

  lemma OpenedKeeps(s: State, picked: seq<bool>)
    requires Inv(s) && |picked| == |s.queue|
    ensures Inv(Opened(s, Pick(s.queue, picked, false)))
  {
    hide Shaped, Counted, Exclusive, Ordered, Final, Prompt, Staged;
    InShape(s);
    OpenedShaped(s, picked);
    PickSubset(s, picked);
    QueueApart(s, Opened(s, Pick(s.queue, picked, false)));
    ShorterQueue(s, Opened(s, Pick(s.queue, picked, false)));
  }

  lemma PickSubset(s: State, picked: seq<bool>)
    requires Shaped(s) && |picked| == |s.queue|
    ensures forall i :: i in Pick(s.queue, picked, false) ==> i in s.queue
  {
    PickMembers(s.queue, picked, false);
  }

  /** Starting what the greedy choice selected keeps the invariant. */
  lemma StartKeeps(s: State, limits: Limits, picked: seq<bool>)
    requires Inv(s) && |picked| == |s.queue| && Greedy(s.calls, s.queue, s.active, limits, picked)
    ensures Known(s.calls, Pick(s.queue, picked, true))
    ensures Inv(Start(s, Pick(s.queue, picked, true), Pick(s.queue, picked, false)))
  {
    hide Inv, Startable, Greedy;
    var selected, remaining := Pick(s.queue, picked, true), Pick(s.queue, picked, false);
    var t := Opened(s, remaining);
    InShape(s);
    PickKnown(s.calls, s.queue, picked, true);
    OpenedKeeps(s, picked);
    assert forall j, k :: 0 <= j < k < |s.queue| ==> s.queue[j] < s.queue[k] by { QueueIncreasing(s); }
    PickMembers(s.queue, picked, true);
    forall k | 0 <= k < |selected| ensures Startable(t, selected[k]) {
      assert selected[k] in selected;
      var q :| 0 <= q < |s.queue| && s.queue[q] == selected[k];
      ChosenStartable(s, limits, picked, q);
    }
    NewBatch(s);
    StartAllKeeps(t, selected, |selected|);
    assert selected[..|selected|] == selected;
  }

  lemma NewBatch(s: State)
    requires Inv(s)
    ensures s.batches + 1 !in s.over
  {
  }

  lemma QueueIncreasing(s: State)
    requires Inv(s)
    ensures forall j, k :: 0 <= j < k < |s.queue| ==> s.queue[j] < s.queue[k]
  {
  }

  // ---------------------------------------------------------------------
  // Runs
  // ---------------------------------------------------------------------

  datatype Step =
    | Submitting(call: Call)
    | Sweeping(gone: set<nat>)
    | Starting(limits: Limits, picked: seq<bool>)
    | Beginning(id: nat)
    | Finishing(id: nat, operation: nat)
    | Returning(id: nat)
    | Completing(id: nat)
    | Leaving(batch: nat)
    | Clearing(id: nat)
    | Receiving(message: nat)
    | Ending(batch: nat)

  /** A batch starts with the greedy choice. The write of a call begins unless the
      call was answered or its batch is over; a result can come once the write has
      begun and until the call is answered; a call is answered with an error only
      before its write begins or after it has returned. */
  ghost predicate Enabled(s: State, step: Step)
    requires Inv(s)
  {
    match step
    case Submitting(_) => true
    case Sweeping(_) => true
    case Starting(limits, picked) => |picked| == |s.queue| && Greedy(s.calls, s.queue, s.active, limits, picked)
    case Beginning(id) => Beginnable(s, id)
    case Finishing(id, o) =>
      id < |s.calls| && o < |s.calls[id].targets| && id in s.begun && id !in s.closed && s.batch[id] !in s.over
    case Returning(id) => id in s.begun
    case Completing(id) => id < |s.calls| && s.batch[id] in s.running && (id in s.begun ==> id in s.returned)
    case Leaving(b) => b in s.running && Still(s, b)
    case Clearing(id) => id < |s.calls| && s.batch[id] in s.over
    case Receiving(m) => m < |s.messages|
    case Ending(b) =>
      && b in s.running && b in s.over
      && forall i :: 0 <= i < |s.calls| && s.batch[i] == b ==> s.holding[i] == {}
  }

  ghost function Apply(s: State, step: Step): (t: State)
    requires Inv(s) && Enabled(s, step)
  {
    match step
    case Submitting(call) => Submit(s, call)
    case Sweeping(gone) => Sweep(s, gone)
    case Starting(limits, picked) =>
      PickKnown(s.calls, s.queue, picked, true);
      Start(s, Pick(s.queue, picked, true), Pick(s.queue, picked, false))
    case Beginning(id) => Begin(s, id)
    case Finishing(id, o) => Finish(s, id, o)
    case Returning(id) => Return(s, id)
    case Completing(id) => Complete(s, id)
    case Leaving(b) => Leave(s, b)
    case Clearing(id) => Release(s, id, Keys(s.calls[id]))
    case Receiving(m) => Receive(s, m)
    case Ending(b) => End(s, b)
  }

  lemma ApplyKeeps(s: State, step: Step)
    requires Inv(s) && Enabled(s, step)
    ensures Inv(Apply(s, step))
  {
    match step {
      case Submitting(call) => SubmitKeeps(s, call);
      case Sweeping(gone) => SweepKeeps(s, gone);
      case Starting(limits, picked) => StartKeeps(s, limits, picked);
      case Beginning(id) => BeginKeeps(s, id);
      case Finishing(id, o) => FinishKeeps(s, id, o);
      case Returning(id) => ReturnKeeps(s, id);
      case Completing(id) => CompleteKeeps(s, id);
      case Leaving(b) => LeaveKeeps(s, b);
      case Clearing(id) => ClearKeeps(s, id);
      case Receiving(m) => ReceiveKeeps(s, m);
      case Ending(b) => EndKeeps(s, b);
    }
  }

  const Idle := State([], [], map[], [], [], [], {}, [], 0, {}, {}, {}, {})

  /** A run takes each step that is enabled when its turn comes. */
  ghost function Run(steps: seq<Step>): (s: State)
    ensures Inv(s)
  {
    if steps == [] then Idle
    else
      var s, step := Run(steps[..|steps| - 1]), steps[|steps| - 1];
      if Enabled(s, step) then ApplyKeeps(s, step); Apply(s, step) else s
  }

  /** The write of a call has returned, or never began and never will. */
  ghost predicate Ended(s: State, i: nat)
    requires i < |s.batch|
  {
    i in s.returned || (i !in s.begun && (i in s.closed || s.batch[i] in s.over))
  }

  /** A call that gave a record up will do nothing more to it. */
  lemma GivenUp(s: State, i: nat, key: nat)
    requires Inv(s) && i < |s.calls| && s.batch[i] > 0 && Touches(s.calls[i], key) && key !in s.holding[i]
    ensures AllDone(s.calls[i], s.done[i], key) || (Ended(s, i) && (i in s.closed || s.batch[i] in s.over))
  {
    if i in s.closed && i in s.begun && i !in s.returned {
      assert AllFinal(s.calls[i], s.done[i]);
    }
  }

  /** Taking further steps from a state. */
  ghost function After(s: State, steps: seq<Step>): (t: State)
    requires Inv(s)
    ensures Inv(t)
  {
    if steps == [] then s
    else
      var t, step := After(s, steps[..|steps| - 1]), steps[|steps| - 1];
      if Enabled(t, step) then ApplyKeeps(t, step); Apply(t, step) else t
  }

  ghost predicate Reaches(s: State, t: State)
    requires Inv(s)
  {
    exists steps :: After(s, steps) == t
  }

  lemma ReachSelf(s: State)
    requires Inv(s)
    ensures Reaches(s, s)
  {
    assert After(s, []) == s;
  }

  /** A step of the system. */
  lemma ReachStep(s: State, t: State, step: Step)
    requires Inv(s) && Inv(t) && Reaches(s, t) && Enabled(t, step)
    ensures Reaches(s, Apply(t, step))
  {
    hide Inv, Enabled, Apply;
    var steps :| After(s, steps) == t;
    assert (steps + [step])[..|steps|] == steps;
    assert After(s, steps + [step]) == Apply(t, step);
  }

  lemma {:induction false} AfterMore(s: State, steps: seq<Step>, more: seq<Step>)
    requires Inv(s)
    ensures After(s, steps + more) == After(After(s, steps), more)
  {
    hide Inv, Enabled, Apply;
    if more == [] {
      assert steps + more == steps;
    } else {
      var n := |more| - 1;
      AfterMore(s, steps, more[..n]);
      assert (steps + more)[..|steps + more| - 1] == steps + more[..n];
    }
  }

  lemma ReachOn(s: State, t: State, u: State)
    requires Inv(s) && Inv(t) && Reaches(s, t) && Reaches(t, u)
    ensures Reaches(s, u)
  {
    hide Inv, After;
    var steps :| After(s, steps) == t;
    var more :| After(t, more) == u;
    AfterMore(s, steps, more);
  }

  lemma IdleHolds()
    ensures Inv(Idle)
  {
  }

  lemma {:induction false} RunIsAfter(steps: seq<Step>)
    ensures Inv(Idle) && Run(steps) == After(Idle, steps)
  {
    IdleHolds();
    hide Inv, Enabled, Apply;
    if steps != [] {
      RunIsAfter(steps[..|steps| - 1]);
    }
  }

  /** What is reached from a run is a run. */
  lemma RunReaches(steps: seq<Step>, t: State)
    requires Reaches(Run(steps), t)
    ensures exists all :: Run(all) == t
  {
    hide Inv, After, Run;
    var more :| After(Run(steps), more) == t;
    RunIsAfter(steps);
    AfterMore(Idle, steps, more);
    RunIsAfter(steps + more);
  }

  /** In every run, for every record:
      the use count covers all calls that hold it;
      two calls that hold it are in one batch;
      of two calls on it that have started, the one submitted first started
      first, or in the same batch;
      if it started in an earlier batch, it has given the record up;
      and a started call on the record holds it while it has no answer and has an
      operation on it without a final result, and gives it up only when all these
      are final, or when its write has returned or never began and never will. */
  lemma EveryRun(steps: seq<Step>, key: nat)
    ensures var s := Run(steps);
            && |s.batch| == |s.holding| == |s.done| == |s.calls|
            && Count(s.holding, key) <= Uses(s.active, key)
            && (forall i, j ::
                  0 <= i < |s.calls| && 0 <= j < |s.calls| && key in s.holding[i] && key in s.holding[j] ==>
                  s.batch[i] == s.batch[j])
            && (forall i, j ::
                  0 <= i < j < |s.calls| && Touches(s.calls[i], key) && Touches(s.calls[j], key) && s.batch[j] > 0 ==>
                  && i !in s.queue
                  && s.batch[i] <= s.batch[j]
                  && (0 < s.batch[i] < s.batch[j] ==> key !in s.holding[i]))
            && (forall i :: 0 <= i < |s.calls| && Touches(s.calls[i], key) && s.batch[i] > 0 ==>
                  && (key in s.holding[i] ==> i !in s.closed && !AllDone(s.calls[i], s.done[i], key))
                  && (key !in s.holding[i] ==> AllDone(s.calls[i], s.done[i], key) || Ended(s, i)))
  {
    var s := Run(steps);
    forall i, j | 0 <= i < |s.calls| && 0 <= j < |s.calls| && key in s.holding[i] && key in s.holding[j]
      ensures s.batch[i] == s.batch[j]
    {
      assert Touches(s.calls[i], key) && Touches(s.calls[j], key);
    }
    forall i | 0 <= i < |s.calls| && Touches(s.calls[i], key) && s.batch[i] > 0 && key !in s.holding[i]
      ensures AllDone(s.calls[i], s.done[i], key) || Ended(s, i)
    {
      GivenUp(s, i, key);
    }
  }

  /** Call `i` has given the record up for good: its operations on it are final, or
      it is answered or over and its write is not running. */
  ghost predicate Finished(s: State, i: nat, key: nat) {
    && i < |s.calls| == |s.batch| == |s.done| && s.batch[i] > 0
    && (AllDone(s.calls[i], s.done[i], key) || (Ended(s, i) && (i in s.closed || s.batch[i] in s.over)))
  }

  /** What a step does to a started call: its write begins only if it may, and it
      gets a result only while it may. */
  ghost predicate Effect(s: State, t: State, i: nat)
    requires i < |s.calls| == |s.batch| == |s.done|
  {
    && i < |t.calls| == |t.batch| == |t.done| && t.calls[i] == s.calls[i] && t.batch[i] == s.batch[i]
    && s.closed <= t.closed && s.returned <= t.returned && s.over <= t.over
    && (i in s.begun ==> i in t.begun) && (i in t.begun && i !in s.begun ==> i !in s.closed && s.batch[i] !in s.over)
    && s.done[i] <= t.done[i]
    && (t.done[i] != s.done[i] ==> i in s.begun && i !in s.closed && s.batch[i] !in s.over)
  }

  lemma {:induction false} StartAllLeaves(s: State, ids: seq<nat>, i: nat)
    requires |s.calls| == |s.batch| == |s.holding| && Known(s.calls, ids) && i < |s.calls| && i !in ids
    ensures var t := StartAll(s, ids);
            t == s.(batch := t.batch, holding := t.holding, active := t.active) && t.batch[i] == s.batch[i]
  {
    if ids != [] {
      hide Bump, Keys;
      StartAllLeaves(s, ids[..|ids| - 1], i);
      assert ids[|ids| - 1] in ids;
    }
  }

  lemma StartEffect(s: State, picked: seq<bool>, i: nat)
    requires Inv(s) && |picked| == |s.queue| && i < |s.calls| && s.batch[i] > 0
    ensures Known(s.calls, Pick(s.queue, picked, true))
    ensures Effect(s, Start(s, Pick(s.queue, picked, true), Pick(s.queue, picked, false)), i)
  {
    PickKnown(s.calls, s.queue, picked, true);
    PickFrom(s.queue, picked, true);
    assert i !in s.queue;
    hide Inv, Pick;
    StartAllLeaves(Opened(s, Pick(s.queue, picked, false)), Pick(s.queue, picked, true), i);
  }

  lemma FinishEffect(s: State, id: nat, o: nat, i: nat)
    requires |s.batch| == |s.holding| == |s.done| == |s.calls| && i < |s.calls|
    requires id < |s.calls| && o < |s.calls[id].targets| && id in s.begun && id !in s.closed && s.batch[id] !in s.over
    ensures Effect(s, Finish(s, id, o), i)
  {
    var t := Settling(s, id, o);
    assert t == s.(done := s.done[id := s.done[id] + {o}], holding := t.holding, messages := t.messages);
    hide Settling, Release;
    CompleteSame(t, id);
  }

  lemma StepEffect(s: State, step: Step, i: nat)
    requires Inv(s) && Enabled(s, step) && i < |s.calls| && s.batch[i] > 0
    ensures Effect(s, Apply(s, step), i)
  {
    InShape(s);
    match step {
      case Starting(limits, picked) => StartEffect(s, picked, i);
      case Finishing(id, o) => FinishEffect(s, id, o, i);
      case Completing(id) => CompleteSame(s, id);
      case _ => hide Inv;
    }
  }

  /** A step leaves a record alone that a call has given up: no operation on it
      gets a result, and the call's write stays over. */
  lemma StaysFinished(s: State, t: State, i: nat, key: nat)
    requires Finished(s, i, key) && Effect(s, t, i)
    ensures Finished(t, i, key)
    ensures forall o :: 0 <= o < |s.calls[i].targets| && s.calls[i].targets[o] == Record(key) ==>
              (o in t.done[i] <==> o in s.done[i])
    ensures !AllDone(s.calls[i], s.done[i], key) ==> Ended(t, i) && (i in t.begun <==> i in s.begun)
  {
  }

  lemma RunNext(steps: seq<Step>)
    requires steps != []
    ensures var s, step := Run(steps[..|steps| - 1]), steps[|steps| - 1];
            Run(steps) == if Enabled(s, step) then Apply(s, step) else s
  {
    hide Inv, Enabled, Apply;
  }

  /** From `s` to `t` operation `o` of call `i` got no result, and if it has none the
      call's write has returned, or neither began nor begins. */
  ghost predicate Unmoved(s: State, t: State, i: nat, key: nat, o: nat) {
    && i < |s.done| == |s.calls| && i < |t.done| == |t.calls| == |t.batch| && t.calls[i] == s.calls[i]
    && o < |s.calls[i].targets| && s.calls[i].targets[o] == Record(key)
    && Finished(t, i, key)
    && (o in t.done[i] <==> o in s.done[i])
    && (o !in s.done[i] ==> Ended(t, i) && (i in t.begun <==> i in s.begun))
  }

  /** When a later batch on a record has started, the earlier call is finished
      with it. */
  lemma PassedOn(s: State, i: nat, j: nat, key: nat, o: nat)
    requires Inv(s) && i < |s.calls| && j < |s.calls| && 0 < s.batch[i] < s.batch[j]
    requires Touches(s.calls[i], key) && Touches(s.calls[j], key)
    requires o < |s.calls[i].targets| && s.calls[i].targets[o] == Record(key)
    ensures Unmoved(s, s, i, key, o)
  {
    GivenUp(s, i, key);
  }

  lemma Lasts(s: State, u: State, step: Step, i: nat, key: nat, o: nat)
    requires Inv(u) && Enabled(u, step) && Unmoved(s, u, i, key, o)
    ensures Unmoved(s, Apply(u, step), i, key, o)
  {
    StepEffect(u, step, i);
    hide Inv, Enabled, Apply;
    StaysFinished(u, Apply(u, step), i, key);
  }

  /** Nothing happens to a record after it was passed on: once a later batch on it
      has started, no operation of the earlier call on it gets a result in any
      continuation of the run, and if one has none, the earlier call's write has
      returned, or neither began nor begins. */
  lemma {:induction false} NothingLate(steps: seq<Step>, more: seq<Step>, i: nat, j: nat, key: nat, o: nat)
    requires var s := Run(steps);
             && i < |s.calls| && j < |s.calls| && |s.batch| == |s.calls| && 0 < s.batch[i] < s.batch[j]
             && Touches(s.calls[i], key) && Touches(s.calls[j], key)
             && o < |s.calls[i].targets| && s.calls[i].targets[o] == Record(key)
    ensures Unmoved(Run(steps), Run(steps + more), i, key, o)
    decreases |more|
  {
    hide Run, Unmoved, Inv, Enabled, Apply;
    if more == [] {
      assert steps + more == steps;
      PassedOn(Run(steps), i, j, key, o);
    } else {
      var n := |more| - 1;
      NothingLate(steps, more[..n], i, j, key, o);
      assert (steps + more)[..|steps + more| - 1] == steps + more[..n];
      var u, step := Run(steps + more[..n]), more[n];
      assert (steps + more)[|steps + more| - 1] == step;
      RunNext(steps + more);
      if Enabled(u, step) {
        Lasts(Run(steps), u, step, i, key, o);
      }
    }
  }

  /** A record that nobody holds and no message mentions is free, so a released
      record never stays blocked. */
  lemma ReleasedIsFree(steps: seq<Step>, key: nat)
    requires Run(steps).messages == []
    ensures Held(Run(steps).active, key) <==> exists i :: 0 <= i < |Run(steps).holding| && key in Run(steps).holding[i]
  {
    var s := Run(steps);
    if exists i :: 0 <= i < |s.holding| && key in s.holding[i] {
      var i :| 0 <= i < |s.holding| && key in s.holding[i];
      CountMember(s.holding, i, key);
    } else {
      CountNobody(s.holding, key);
    }
  }

  lemma {:induction false} CountNobody(sets: seq<set<nat>>, key: nat)
    requires forall i :: 0 <= i < |sets| ==> key !in sets[i]
    ensures Count(sets, key) == 0
  {
    if sets != [] {
      CountNobody(sets[..|sets| - 1], key);
    }
  }

  /** No release is lost: when no batch runs and every release has been received,
      the next choice takes the oldest waiting call. */
  lemma IdleStartsOldest(steps: seq<Step>, limits: Limits, picked: seq<bool>)
    requires var s := Run(steps);
             && s.running == {} && s.messages == [] && s.queue != [] && |picked| == |s.queue|
             && Greedy(s.calls, s.queue, s.active, limits, picked)
    ensures picked[0]
  {
    var s := Run(steps);
    forall key ensures !Held(s.active, key) {
      ReleasedIsFree(steps, key);
    }
    assert !Dependent(s.calls, s.queue, s.active, picked, 0);
  }
}
