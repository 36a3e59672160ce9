/** Publishing final results while a batch still runs
    (internal/service/write_completion.go): each caller's records are given back
    as soon as all its operations on them are final, and each caller is answered
    as soon as all its operations are. */
module WriteCompletion {
  import opened Options
  import opened BatchSelection
  import opened BatcherSteps
  import opened BatcherLoop

  datatype Owner = Owner(caller: nat, index: nat)

  /** A result, with the operation index its caller sees. */
  datatype Answer = Answer(index: nat, verdict: nat)

  /** All operations, or those on one record. */
  datatype Which = Any | Only(key: nat)

  predicate Matches(target: Target, w: Which) { w.Any? || target == Record(w.key) }

  /** How many of the first `n` operations have no final result yet. */
  function Undone(call: Call, done: set<nat>, w: Which, n: nat): nat
    requires n <= |call.targets|
  {
    if n == 0 then 0
    else Undone(call, done, w, n - 1) + (if n - 1 !in done && Matches(call.targets[n - 1], w) then 1 else 0)
  }

  lemma {:induction false} UndoneNext(call: Call, done: set<nat>, w: Which, o: nat, n: nat)
    requires o < |call.targets| && o !in done && n <= |call.targets|
    ensures Undone(call, done + {o}, w, n) + (if o < n && Matches(call.targets[o], w) then 1 else 0)
            == Undone(call, done, w, n)
  {
    if n > 0 {
      UndoneNext(call, done, w, o, n - 1);
    }
  }

  lemma {:induction false} UndoneZero(call: Call, done: set<nat>, w: Which, n: nat)
    requires n <= |call.targets|
    ensures Undone(call, done, w, n) == 0 <==> forall p :: 0 <= p < n && Matches(call.targets[p], w) ==> p in done
  {
    if n > 0 {
      UndoneZero(call, done, w, n - 1);
    }
  }

  function Left(records: map<nat, nat>, key: nat): nat { if key in records then records[key] else 0 }

  /** What is kept for one caller: how many of its operations, and how many on
      each record, have no final result yet, and the answers so far. */
  datatype Tracker = Tracker(remaining: nat, records: map<nat, nat>, answers: map<nat, Answer>)

  ghost predicate Tracks(call: Call, done: set<nat>, t: Tracker) {
    && t.remaining == Undone(call, done, Any, |call.targets|)
    && RecordsLeft(call, done, t.records, |call.targets|)
    && t.answers.Keys == done
    && (forall o :: o in t.answers ==> t.answers[o].index == o)
  }

  ghost predicate RecordsLeft(call: Call, done: set<nat>, records: map<nat, nat>, n: nat)
    requires n <= |call.targets|
  {
    forall key :: Left(records, key) == Undone(call, done, Only(key), n)
  }

  function Lowered(records: map<nat, nat>, target: Target): map<nat, nat> {
    if target.Record? && target.key in records && records[target.key] > 0
    then records[target.key := records[target.key] - 1] else records
  }

  /** The tracker after one more final result. */
  function Tracked(t: Tracker, target: Target, o: nat, answer: Answer): Tracker {
    Tracker(if t.remaining > 0 then t.remaining - 1 else 0, Lowered(t.records, target), t.answers[o := answer])
  }

  lemma TrackedNext(call: Call, done: set<nat>, t: Tracker, o: nat, answer: Answer)
    requires Tracks(call, done, t) && o < |call.targets| && o !in done && answer.index == o
    ensures Tracks(call, done + {o}, Tracked(t, call.targets[o], o, answer))
  {
    UndoneNext(call, done, Any, o, |call.targets|);
    forall key
      ensures Left(Lowered(t.records, call.targets[o]), key) == Undone(call, done + {o}, Only(key), |call.targets|)
    {
      UndoneNext(call, done, Only(key), o, |call.targets|);
      assert Left(t.records, key) == Undone(call, done, Only(key), |call.targets|);
    }
  }

  /** A counter is zero exactly when the operations it counts are done. */
  lemma ZeroMeansDone(call: Call, done: set<nat>, t: Tracker)
    requires Tracks(call, done, t)
    ensures forall key :: Left(t.records, key) == 0 <==> AllDone(call, done, key)
    ensures t.remaining == 0 <==> forall o :: 0 <= o < |call.targets| ==> o in done
  {
    forall key ensures Left(t.records, key) == 0 <==> AllDone(call, done, key) {
      assert Left(t.records, key) == Undone(call, done, Only(key), |call.targets|);
      UndoneZero(call, done, Only(key), |call.targets|);
    }
    UndoneZero(call, done, Any, |call.targets|);
  }

  /** The answer that was published for an operation. */
  function Published(trackers: seq<Tracker>, owner: Owner): Option<Answer>
    requires owner.caller < |trackers|
  {
    if owner.index in trackers[owner.caller].answers then Some(trackers[owner.caller].answers[owner.index]) else None
  }

  /** A result counts only where none was published before. */
  function FirstOf(before: Option<Answer>, owner: Owner, verdict: nat): (first: Option<Answer>)
    ensures first.Some?
  {
    if before.Some? then before else Some(Answer(owner.index, verdict))
  }

  lemma NothingPublished(calls: seq<Call>, group: seq<nat>, trackers: seq<Tracker>)
    requires |trackers| == |group| && Known(calls, group)
    requires forall c :: 0 <= c < |group| ==> Tracks(calls[group[c]], {}, trackers[c])
    ensures forall y: Owner :: y.caller < |trackers| ==> Published(trackers, y) == None
  {
    forall y: Owner | y.caller < |trackers| ensures Published(trackers, y) == None {
      assert Tracks(calls[group[y.caller]], {}, trackers[y.caller]);
    }
  }

  /** A result that is not the first changes nothing. */
  lemma PublishedBefore(before: seq<Tracker>, owner: Owner, verdict: nat)
    requires owner.caller < |before| && owner.index in before[owner.caller].answers
    ensures Published(before, owner) == FirstOf(Published(before, owner), owner, verdict)
  {
  }

  /** A first result is published for its own operation only. */
  lemma PublishedNow(before: seq<Tracker>, owner: Owner, target: Target, verdict: nat)
    requires owner.caller < |before| && owner.index !in before[owner.caller].answers
    ensures var after := before[owner.caller :=
                                Tracked(before[owner.caller], target, owner.index, Answer(owner.index, verdict))];
            && Published(after, owner) == FirstOf(Published(before, owner), owner, verdict)
            && forall y: Owner :: y != owner && y.caller < |before| ==> Published(after, y) == Published(before, y)
  {
  }

  /** Of all calls, only these were answered. */
  ghost predicate OnlyThese(before: set<nat>, after: set<nat>, ids: seq<nat>) {
    before <= after && forall i :: i in after && i !in before ==> i in ids
  }

  /** Only these got results. */
  ghost predicate ResultsOf(before: seq<set<nat>>, after: seq<set<nat>>, ids: seq<nat>) {
    |before| == |after| && forall i :: 0 <= i < |before| && i !in ids ==> after[i] == before[i]
  }

  /** A caller of a write: its write has begun, its batch is not over, and it is
      answered exactly when nothing is left or the execution failed. */
  ghost predicate InWrite(s: State, id: nat, remaining: nat, failed: bool) {
    && id < |s.calls| == |s.batch| && id in s.begun && s.batch[id] in s.running && s.batch[id] !in s.over
    && (remaining == 0 && s.calls[id].targets != [] ==> id in s.closed)
    && (id in s.closed ==> remaining == 0 || failed)
  }

  lemma FinishCloses(s: State, id: nat, o: nat)
    requires id < |s.holding| == |s.calls| == |s.done| && o < |s.calls[id].targets| && o !in s.done[id]
    ensures var t := Finish(s, id, o);
            && t == s.(done := s.done[id := s.done[id] + {o}], closed := t.closed, holding := t.holding,
                       messages := t.messages)
            && t.closed == s.closed + (if AllFinal(s.calls[id], s.done[id] + {o}) then {id} else {})
  {
    var t := Settling(s, id, o);
    assert t == s.(done := s.done[id := s.done[id] + {o}], holding := t.holding, messages := t.messages);
    hide Settling, Release;
    CompleteSame(t, id);
  }

  lemma OnlySelf(closed: set<nat>, done: seq<set<nat>>, ids: seq<nat>)
    ensures OnlyThese(closed, closed, ids) && ResultsOf(done, done, ids)
  {
  }

  lemma FinishOnly(s: State, id: nat, o: nat, ids: seq<nat>)
    requires id < |s.holding| == |s.calls| == |s.done| && o < |s.calls[id].targets| && o !in s.done[id] && id in ids
    ensures OnlyThese(s.closed, Finish(s, id, o).closed, ids) && ResultsOf(s.done, Finish(s, id, o).done, ids)
  {
    FinishCloses(s, id, o);
    hide Finish;
  }

  /** A result for one caller leaves the others in their writes. */
  lemma OthersInWrite(s: State, t: State, id: nat, other: nat, remaining: nat, failed: bool)
    requires InWrite(s, other, remaining, failed) && other != id
    requires t == s.(done := t.done, closed := t.closed, holding := t.holding, messages := t.messages)
    requires t.closed == s.closed || t.closed == s.closed + {id}
    ensures InWrite(t, other, remaining, failed)
  {
  }

  lemma StartedNow(s: State, id: nat)
    requires Inv(s) && id < |s.calls| == |s.batch| && s.batch[id] in s.running
    ensures s.batch[id] > 0
  {
  }

  /** Answering a caller whose write has returned, or never began, is a step of the
      batcher. */
  lemma Answering(s: State, id: nat)
    requires Inv(s) && id < |s.calls| == |s.batch| && s.batch[id] in s.running && (id in s.begun ==> id in s.returned)
    ensures |s.holding| == |s.calls| && Inv(Complete(s, id)) && Reaches(s, Complete(s, id))
    ensures var t := Complete(s, id);
            t == s.(closed := s.closed + {id}, holding := t.holding, messages := t.messages)
  {
    hide Inv, Reaches, Complete;
    InShape(s);
    StartedNow(s, id);
    CompleteKeeps(s, id);
    CompleteSame(s, id);
    ReachSelf(s);
    assert Enabled(s, Completing(id));
    ReachStep(s, s, Completing(id));
  }

  lemma ReturnStep(s: State, id: nat)
    requires Inv(s) && id in s.begun
    ensures Inv(Return(s, id)) && Reaches(s, Return(s, id))
  {
    hide Inv, Reaches;
    ReturnKeeps(s, id);
    ReachSelf(s);
    assert Enabled(s, Returning(id));
    ReachStep(s, s, Returning(id));
  }

  /** A first result of a caller is a step of the batcher. */
  lemma ResultComes(s: State, id: nat, o: nat, t: Tracker)
    requires Inv(s) && id < |s.calls| == |s.done| && o < |s.calls[id].targets| && o !in s.done[id]
    requires InWrite(s, id, t.remaining, false) && Tracks(s.calls[id], s.done[id], t)
    ensures |s.holding| == |s.calls| && Inv(Finish(s, id, o)) && Reaches(s, Finish(s, id, o)) && id !in s.closed
  {
    ZeroMeansDone(s.calls[id], s.done[id], t);
    InShape(s);
    FinishKeeps(s, id, o);
    ReachSelf(s);
    assert Enabled(s, Finishing(id, o));
    hide Inv, Enabled, Reaches, Finish;
    ReachStep(s, s, Finishing(id, o));
  }

  class Completion {
    const batcher: Batcher
    const group: seq<nat>
    const owners: seq<Owner>
    var trackers: seq<Tracker>
    /** The callers that were answered with the error of the execution. */
    var errors: set<nat>

    ghost predicate Valid()
      reads this, batcher
    {
      && Inv(batcher.Now())
      && |trackers| == |group| && |batcher.done| == |batcher.batch| == |batcher.calls|
      && Known(batcher.calls, group)
      && (forall c, d :: 0 <= c < d < |group| ==> group[c] != group[d])
      && Owned(batcher.calls, group, owners)
      && (forall c :: 0 <= c < |group| ==> Tracks(batcher.calls[group[c]], batcher.done[group[c]], trackers[c]))
      && (forall c :: 0 <= c < |group| ==> InWrite(batcher.Now(), group[c], trackers[c].remaining, c in errors))
    }

    /** `newWriteCompletion`. */
    constructor (batcher: Batcher, group: seq<nat>)
      requires Inv(batcher.Now())
      requires forall c :: 0 <= c < |group| ==>
        group[c] < |batcher.calls| && batcher.done[group[c]] == {} && group[c] in batcher.begun
            && group[c] !in batcher.closed
        && batcher.batch[group[c]] in batcher.running && batcher.batch[group[c]] !in batcher.over
      requires forall c, d :: 0 <= c < d < |group| ==> group[c] != group[d]
      ensures Valid() && this.batcher == batcher && this.group == group && errors == {}
      ensures forall y: Owner :: y.caller < |trackers| ==> Published(trackers, y) == None
    {
      hide Inv, Tracks;
      InShape(batcher.Now());
      var all, initial := Track(batcher.calls, group);
      forall c | 0 <= c < |group| && batcher.calls[group[c]].targets != [] ensures initial[c].remaining > 0 {
        SomeLeft(batcher.calls[group[c]], initial[c]);
      }
      this.batcher, this.group, owners, trackers, errors := batcher, group, all, initial, {};
      NothingPublished(batcher.calls, group, initial);
    }

    /** One final result; results after the first for an operation are ignored. */
    method Operation(x: nat, verdict: nat)
      requires Valid() && x < |owners| && errors == {}
      modifies this`trackers, batcher`done, batcher`closed, batcher`holding, batcher`recordsDone
      ensures Valid() && Reaches(old(batcher.Now()), batcher.Now())
      ensures batcher.Now() == Finish(old(batcher.Now()), group[owners[x].caller], owners[x].index)
      ensures OnlyThese(old(batcher.closed), batcher.closed, group) && ResultsOf(old(batcher.done), batcher.done, group)
      ensures |trackers| == |old(trackers)| && owners[x].caller < |trackers|
      ensures Published(trackers, owners[x]) == FirstOf(old(Published(trackers, owners[x])), owners[x], verdict)
      ensures forall y: Owner :: y != owners[x] && y.caller < |trackers| ==>
                Published(trackers, y) == old(Published(trackers, y))
    {
      hide Inv, Tracks, Owned, Published, FirstOf, InWrite, Reaches, OnlyThese, ResultsOf;
      InShape(batcher.Now());
      ReachSelf(batcher.Now());
      OnlySelf(batcher.closed, batcher.done, group);
      OwnerShape(batcher.calls, group, owners, x);
      var c, o := owners[x].caller, owners[x].index;
      var id := group[c];
      var call := batcher.calls[id];
      AnswersAreDone(call, batcher.done[id], trackers[c]);
      if o in batcher.done[id] {
        PublishedBefore(trackers, owners[x], verdict);
        return;
      }
      ghost var s := batcher.Now();
      assert id in group;
      PublishedNow(trackers, owners[x], call.targets[o], verdict);
      assert InWrite(s, id, trackers[c].remaining, c in errors);
      ResultComes(s, id, o, trackers[c]);
      TrackedNext(call, batcher.done[id], trackers[c], o, Answer(o, verdict));
      batcher.done := batcher.done[id := batcher.done[id] + {o}];
      trackers := trackers[c := Tracked(trackers[c], call.targets[o], o, Answer(o, verdict))];
      ZeroMeansDone(call, batcher.done[id], trackers[c]);
      Publish(id, call.targets[o], trackers[c]);
      assert batcher.Now() == Finish(s, id, o);
      FinishOnly(s, id, o, group);
      StillInWrite(s, batcher.Now(), c, id, o);
    }

    /** After a result for caller `c` all callers are still in their writes. */
    lemma StillInWrite(s: State, t: State, c: nat, id: nat, o: nat)
      requires |trackers| == |group| && c < |group| && id == group[c] && errors == {}
      requires forall d, e :: 0 <= d < e < |group| ==> group[d] != group[e]
      requires id < |s.holding| == |s.calls| == |s.done| && o < |s.calls[id].targets| && o !in s.done[id]
          && t == Finish(s, id, o)
      requires id !in s.closed && exists remaining: nat :: InWrite(s, id, remaining, false)
      requires forall d :: 0 <= d < |group| && d != c ==> InWrite(s, group[d], trackers[d].remaining, d in errors)
      requires Tracks(s.calls[id], s.done[id] + {o}, trackers[c]) && s.calls[id].targets != []
      ensures forall d :: 0 <= d < |group| ==> InWrite(t, group[d], trackers[d].remaining, d in errors)
    {
      FinishCloses(s, id, o);
      ZeroMeansDone(s.calls[id], s.done[id] + {o}, trackers[c]);
      hide Finish, Tracks;
      forall d | 0 <= d < |group| ensures InWrite(t, group[d], trackers[d].remaining, d in errors) {
        if d != c {
          OthersInWrite(s, t, id, group[d], trackers[d].remaining, false);
        }
      }
    }

    /** The write of the group has returned. */
    ghost method WriteReturned()
      requires Valid()
      modifies batcher`returned
      ensures Valid() && Reaches(old(batcher.Now()), batcher.Now())
      ensures old(batcher.returned) <= batcher.returned && forall c :: 0 <= c < |group| ==> group[c] in batcher.returned
    {
      hide Inv, Reaches, Tracks, Owned;
      var s := batcher.Now();
      ReachSelf(s);
      for n := 0 to |group|
        invariant Valid() && Reaches(s, batcher.Now())
        invariant s.returned <= batcher.returned && forall c :: 0 <= c < n ==> group[c] in batcher.returned
      {
        var u := batcher.Now();
        assert InWrite(u, group[n], trackers[n].remaining, n in errors);
        ReturnStep(u, group[n]);
        batcher.returned := batcher.returned + {group[n]};
        ReachOn(s, u, batcher.Now());
        forall c | 0 <= c < |group| ensures InWrite(batcher.Now(), group[c], trackers[c].remaining, c in errors) {
          assert InWrite(u, group[c], trackers[c].remaining, c in errors);
        }
      }
    }

    /** The end of the execution: every caller with operations is answered.
        Without an error the results at the positions of a caller's operations
        become its answers, except where an earlier one was published; with an
        error, exactly the callers that still wait for a result get it. */
    method FinishAll(failed: bool, verdicts: seq<nat>)
      requires Valid() && errors == {} && forall c :: 0 <= c < |group| ==> group[c] in batcher.returned
      modifies this, batcher`done, batcher`closed, batcher`holding, batcher`recordsDone
      ensures Valid() && Reaches(old(batcher.Now()), batcher.Now())
      ensures OnlyThese(old(batcher.closed), batcher.closed, group) && ResultsOf(old(batcher.done), batcher.done, group)
      ensures forall c :: 0 <= c < |group| && batcher.calls[group[c]].targets != [] ==> group[c] in batcher.closed
      ensures if failed || |verdicts| != |owners|
              then trackers == old(trackers)
                  && forall c: nat :: c in errors <==> c < |group| && trackers[c].remaining > 0
              else errors == {} && forall x :: 0 <= x < |owners| ==>
                Published(trackers, owners[x]) == FirstOf(old(Published(trackers, owners[x])), owners[x], verdicts[x])
    {
      hide Valid, Inv, Published, FirstOf, Reaches, Owned;
      ghost var s := batcher.Now();
      Shape();
      ReachSelf(s);
      if failed || |verdicts| != |owners| {
        FailRest();
        return;
      }
      OwnersKnown(batcher.calls, group, owners);
      for x := 0 to |owners|
        invariant Valid() && errors == {} && Reaches(s, batcher.Now()) && |trackers| == |group|
        invariant OnlyThese(s.closed, batcher.closed, group) && ResultsOf(s.done, batcher.done, group)
        invariant forall y :: 0 <= y < x ==>
          Published(trackers, owners[y]) == FirstOf(old(Published(trackers, owners[y])), owners[y], verdicts[y])
        invariant forall y :: x <= y < |owners| ==>
            Published(trackers, owners[y]) == old(Published(trackers, owners[y]))
      {
        Shape();
        OwnersDiffer(batcher.calls, group, owners, x);
        ghost var u := batcher.Now();
        Operation(x, verdicts[x]);
        Shape();
        ReachOn(s, u, batcher.Now());
      }
      AllAnswered();
    }

    /** Callers whose operations all have an answer have been answered. */
    lemma AllAnswered()
      requires Valid()
      requires forall x :: 0 <= x < |owners| ==>
                 owners[x].caller < |trackers| && Published(trackers, owners[x]).Some?
      ensures forall c :: 0 <= c < |group| && batcher.calls[group[c]].targets != [] ==> group[c] in batcher.closed
    {
      hide Inv, Tracks, Owned;
      forall c | 0 <= c < |group| && batcher.calls[group[c]].targets != [] ensures group[c] in batcher.closed {
        forall o | 0 <= o < |batcher.calls[group[c]].targets| ensures o in trackers[c].answers {
          var x := OwnerAt(batcher.calls, group, owners, c, o);
          assert Published(trackers, owners[x]).Some?;
        }
        AnswersAreDone(batcher.calls[group[c]], batcher.done[group[c]], trackers[c]);
        ZeroMeansDone(batcher.calls[group[c]], batcher.done[group[c]], trackers[c]);
      }
    }

    method FailRest()
      requires Valid() && errors == {} && forall c :: 0 <= c < |group| ==> group[c] in batcher.returned
      modifies this`errors, batcher`closed, batcher`holding, batcher`recordsDone
      ensures Valid() && Reaches(old(batcher.Now()), batcher.Now())
      ensures OnlyThese(old(batcher.closed), batcher.closed, group)
      ensures forall c :: 0 <= c < |group| && batcher.calls[group[c]].targets != [] ==> group[c] in batcher.closed
      ensures forall c: nat :: c in errors <==> c < |group| && trackers[c].remaining > 0
    {
      hide Valid, Inv, Reaches;
      ghost var s := batcher.Now();
      Shape();
      ReachSelf(s);
      for c := 0 to |group|
        invariant Valid() && Reaches(s, batcher.Now()) && OnlyThese(s.closed, batcher.closed, group)
        invariant forall d :: 0 <= d < c && batcher.calls[group[d]].targets != [] ==> group[d] in batcher.closed
        invariant forall d: nat :: d in errors <==> d < c && trackers[d].remaining > 0
      {
        Shape();
        if trackers[c].remaining > 0 {
          ghost var u := batcher.Now();
          FailOne(c);
          ReachOn(s, u, batcher.Now());
        } else {
          Answered(c);
        }
      }
    }

    lemma Shape()
      requires Valid()
      ensures |trackers| == |group| && Known(batcher.calls, group) && Inv(batcher.Now())
      ensures |batcher.done| == |batcher.batch| == |batcher.calls| && Owned(batcher.calls, group, owners)
    {
    }

    lemma Answered(c: nat)
      requires Valid() && c < |group| && trackers[c].remaining == 0
      ensures batcher.calls[group[c]].targets != [] ==> group[c] in batcher.closed
    {
      hide Inv, Tracks, Owned;
      assert InWrite(batcher.Now(), group[c], trackers[c].remaining, c in errors);
    }

    method FailOne(c: nat)
      requires Valid() && c < |group| && group[c] in batcher.returned
      modifies this`errors, batcher`closed, batcher`holding, batcher`recordsDone
      ensures Valid() && Reaches(old(batcher.Now()), batcher.Now())
      ensures batcher.closed == old(batcher.closed) + {group[c]} && errors == old(errors) + {c}
    {
      hide Inv, Tracks, Owned, Reaches;
      InShape(batcher.Now());
      ghost var s := batcher.Now();
      Answering(s, group[c]);
      batcher.CompleteCall(group[c]);
      errors := errors + {c};
    }

    /** Gives back what the counters say is final. */
    method Publish(id: nat, target: Target, t: Tracker)
      requires id < |batcher.holding| == |batcher.calls|
      modifies batcher`closed, batcher`holding, batcher`recordsDone
      ensures batcher.Now() ==
              var s := old(batcher.Now());
              var u := if target.Record? && Left(t.records, target.key) == 0 then Release(s, id, {target.key}) else s;
              if t.remaining == 0 then Complete(u, id) else u
    {
      if target.Record? && (target.key !in t.records || t.records[target.key] == 0) {
        assert KeySet([target.key]) == {target.key};
        batcher.FinishRecords(id, [target.key]);
      }
      if t.remaining == 0 {
        batcher.CompleteCall(id);
      }
    }
  }

  /** Before any result, a caller with operations has some left. */
  lemma SomeLeft(call: Call, t: Tracker)
    requires Tracks(call, {}, t) && call.targets != []
    ensures t.remaining > 0
  {
    ZeroMeansDone(call, {}, t);
    assert 0 !in {};
  }

  lemma AnswersAreDone(call: Call, done: set<nat>, t: Tracker)
    requires Tracks(call, done, t)
    ensures t.answers.Keys == done
  {
  }

  /** The nested loops of `newWriteCompletion`. */
  method Track(calls: seq<Call>, group: seq<nat>) returns (owners: seq<Owner>, trackers: seq<Tracker>)
    requires Known(calls, group)
    ensures |trackers| == |group|
    ensures forall c :: 0 <= c < |group| ==> Tracks(calls[group[c]], {}, trackers[c])
    ensures Owned(calls, group, owners)
  {
    hide Tracks;
    owners, trackers := [], [];
    for c := 0 to |group|
      invariant |trackers| == c
      invariant forall d :: 0 <= d < c ==> Tracks(calls[group[d]], {}, trackers[d])
      invariant Owned(calls, group[..c], owners)
    {
      hide Owned;
      var mine, tracker := TrackOne(calls[group[c]], c);
      OwnedNext(calls, group[..c], group[c], owners, mine);
      assert group[..c] + [group[c]] == group[..c + 1];
      owners, trackers := owners + mine, trackers + [tracker];
    }
    assert group[..|group|] == group;
  }

  /** Where the operations of caller `c` start in the batch's list. */
  ghost function Position(calls: seq<Call>, group: seq<nat>, c: nat): nat
    requires Known(calls, group) && c <= |group|
  {
    if c == 0 then 0 else Position(calls, group, c - 1) + |calls[group[c - 1]].targets|
  }

  /** The owners are the operations of the callers, one after another. */
  ghost predicate Owned(calls: seq<Call>, group: seq<nat>, owners: seq<Owner>)
    requires Known(calls, group)
  {
    && |owners| == Position(calls, group, |group|)
    && (forall x :: 0 <= x < |owners| ==> Placed(calls, group, owners[x], x))
    && (forall c :: 0 <= c < |group| ==> Listed(calls, group, owners, c))
  }

  /** The operation at position `x` of the list. */
  ghost predicate Placed(calls: seq<Call>, group: seq<nat>, owner: Owner, x: nat)
    requires Known(calls, group)
  {
    && owner.caller < |group| && owner.index < |calls[group[owner.caller]].targets|
    && Position(calls, group, owner.caller) + owner.index == x
  }

  /** The list holds the operations of caller `c` at its positions. */
  ghost predicate Listed(calls: seq<Call>, group: seq<nat>, owners: seq<Owner>, c: nat)
    requires Known(calls, group) && c < |group|
  {
    var p := Position(calls, group, c);
    p + |calls[group[c]].targets| <= |owners|
    && forall o :: 0 <= o < |calls[group[c]].targets| ==> owners[p + o] == Owner(c, o)
  }

  lemma OwnerShape(calls: seq<Call>, group: seq<nat>, owners: seq<Owner>, x: nat)
    requires Known(calls, group) && Owned(calls, group, owners) && x < |owners|
    ensures owners[x].caller < |group| && owners[x].index < |calls[group[owners[x].caller]].targets|
    ensures Position(calls, group, owners[x].caller) + owners[x].index == x
  {
    assert Placed(calls, group, owners[x], x);
  }

  lemma OwnersKnown(calls: seq<Call>, group: seq<nat>, owners: seq<Owner>)
    requires Known(calls, group) && Owned(calls, group, owners)
    ensures forall x :: 0 <= x < |owners| ==> owners[x].caller < |group|
  {
    hide Owned, Position;
    forall x | 0 <= x < |owners| ensures owners[x].caller < |group| {
      OwnerShape(calls, group, owners, x);
    }
  }

  lemma OwnersDiffer(calls: seq<Call>, group: seq<nat>, owners: seq<Owner>, x: nat)
    requires Known(calls, group) && Owned(calls, group, owners) && x < |owners|
    ensures forall y :: 0 <= y < |owners| ==> owners[y].caller < |group| && (y != x ==> owners[y] != owners[x])
  {
    hide Owned, Position;
    forall y | 0 <= y < |owners| ensures owners[y].caller < |group| && (y != x ==> owners[y] != owners[x]) {
      OwnerShape(calls, group, owners, x);
      OwnerShape(calls, group, owners, y);
    }
  }

  lemma OwnerAt(calls: seq<Call>, group: seq<nat>, owners: seq<Owner>, c: nat, o: nat) returns (x: nat)
    requires Known(calls, group) && Owned(calls, group, owners) && c < |group| && o < |calls[group[c]].targets|
    ensures x < |owners| && owners[x] == Owner(c, o)
  {
    assert Listed(calls, group, owners, c);
    x := Position(calls, group, c) + o;
  }

  lemma {:induction false} PositionPrefix(calls: seq<Call>, group: seq<nat>, id: nat, c: nat)
    requires Known(calls, group) && id < |calls| && c <= |group|
    ensures Position(calls, group + [id], c) == Position(calls, group, c)
  {
    if c > 0 {
      PositionPrefix(calls, group, id, c - 1);
    }
  }

  lemma OwnedNext(calls: seq<Call>, group: seq<nat>, id: nat, owners: seq<Owner>, mine: seq<Owner>)
    requires Known(calls, group) && id < |calls| && Owned(calls, group, owners)
    requires |mine| == |calls[id].targets| && forall o :: 0 <= o < |mine| ==> mine[o] == Owner(|group|, o)
    ensures Owned(calls, group + [id], owners + mine)
  {
    hide Position;
    var now, all := group + [id], owners + mine;
    PositionPrefix(calls, group, id, |group|);
    PositionNext(calls, group, id);
    forall x | 0 <= x < |all| ensures Placed(calls, now, all[x], x) {
      if x < |owners| {
        assert Placed(calls, group, owners[x], x);
        PositionPrefix(calls, group, id, owners[x].caller);
      }
    }
    forall c | 0 <= c < |now| ensures Listed(calls, now, all, c) {
      if c < |group| {
        assert Listed(calls, group, owners, c);
        PositionPrefix(calls, group, id, c);
      }
    }
  }

  lemma PositionNext(calls: seq<Call>, group: seq<nat>, id: nat)
    requires Known(calls, group) && id < |calls|
    ensures Position(calls, group + [id], |group| + 1) == Position(calls, group + [id], |group|) + |calls[id].targets|
  {
  }

  method TrackOne(call: Call, caller: nat) returns (owners: seq<Owner>, t: Tracker)
    ensures |owners| == |call.targets| && forall o :: 0 <= o < |owners| ==> owners[o] == Owner(caller, o)
    ensures Tracks(call, {}, t)
  {
    owners := [];
    var records: map<nat, nat> := map[];
    for n := 0 to |call.targets|
      invariant |owners| == n && forall o :: 0 <= o < n ==> owners[o] == Owner(caller, o)
      invariant RecordsLeft(call, {}, records, n) && Undone(call, {}, Any, n) == n
    {
      owners := owners + [Owner(caller, n)];
      if call.targets[n].Record? {
        var key := call.targets[n].key;
        records := records[key := Left(records, key) + 1];
      }
    }
    t := Tracker(|call.targets|, records, map[]);
  }
}
