/** Planning the calls of a batch into waves that never mix completion modes on
    one record (internal/service/mutation_batches.go). */
module MutationWaves {

  datatype Mode = WaitUntilApplied | ReturnAfterAccepted | WaitUntilVisible

  /** A call with the records of its operations that have a valid address. */
  datatype Call = Call(mode: Mode, records: seq<nat>)

  /** The calls of one wave, by position, in order. */
  datatype Wave = Wave(applied: seq<nat>, visible: seq<nat>)

  predicate Share(a: Call, b: Call) {
    exists r :: r in a.records && r in b.records
  }

  function Step(a: Call, b: Call): nat { if a.mode != b.mode then 1 else 0 }

  /** The rule: a call is not before an earlier call that shares a record, and
      strictly after it if their modes differ. */
  ghost predicate Obeys(calls: seq<Call>, at: seq<nat>)
    requires |at| <= |calls|
  {
    forall i, j :: 0 <= i < j < |at| && Share(calls[i], calls[j]) ==> at[i] + Step(calls[i], calls[j]) <= at[j]
  }

  /** Every call is as early as its predecessors allow. */
  ghost predicate Tight(calls: seq<Call>, at: seq<nat>)
    requires |at| <= |calls|
  {
    && Obeys(calls, at)
    && (forall j :: 0 <= j < |at| && at[j] > 0 ==>
          exists i :: 0 <= i < j && Share(calls[i], calls[j]) && at[j] == at[i] + Step(calls[i], calls[j]))
  }

  /** A tight plan is least: no plan that obeys the rule puts any call earlier. */
  lemma {:induction false} TightIsLeast(calls: seq<Call>, at: seq<nat>, other: seq<nat>, j: nat)
    requires |at| == |other| == |calls| && Tight(calls, at) && Obeys(calls, other) && j < |calls|
    ensures at[j] <= other[j]
    decreases j
  {
    if at[j] > 0 {
      var i :| 0 <= i < j && Share(calls[i], calls[j]) && at[j] == at[i] + Step(calls[i], calls[j]);
      TightIsLeast(calls, at, other, i);
    }
  }

  /** In one wave, calls of different modes touch different records. */
  lemma SameWaveDisjoint(calls: seq<Call>, at: seq<nat>, i: nat, j: nat)
    requires |at| == |calls| && Obeys(calls, at) && i < |calls| && j < |calls| && at[i] == at[j]
        && calls[i].mode != calls[j].mode
    ensures !Share(calls[i], calls[j])
  {
    if i < j {
      assert !Share(calls[i], calls[j]);
    } else if j < i {
      assert !Share(calls[j], calls[i]);
    }
  }

  // ---------------------------------------------------------------------
  // Waves as lists of calls
  // ---------------------------------------------------------------------

  /** The calls of wave `w` that wait for visibility, or those that do not. */
  function Members(calls: seq<Call>, at: seq<nat>, w: nat, visible: bool): seq<nat>
    requires |at| <= |calls|
  {
    if at == [] then []
    else
      var n := |at| - 1;
      Members(calls, at[..n], w, visible)
      + (if at[n] == w && (calls[n].mode == WaitUntilVisible) == visible then [n] else [])
  }

  /** The members of a wave are exactly its calls, each once, in submission order. */
  lemma {:induction false} MembersExact(calls: seq<Call>, at: seq<nat>, w: nat, visible: bool)
    requires |at| <= |calls|
    ensures var m := Members(calls, at, w, visible);
            && (forall i, j :: 0 <= i < j < |m| ==> m[i] < m[j])
            && (forall k :: k in m <==> 0 <= k < |at| && at[k] == w && (calls[k].mode == WaitUntilVisible) == visible)
  {
    if at != [] {
      var n := |at| - 1;
      MembersExact(calls, at[..n], w, visible);
      var before, m := Members(calls, at[..n], w, visible), Members(calls, at, w, visible);
      forall i, j | 0 <= i < j < |m| ensures m[i] < m[j] {
        assert m[i] == before[i] && before[i] in before;
      }
    }
  }

  ghost predicate Listed(calls: seq<Call>, at: seq<nat>, waves: seq<Wave>)
    requires |at| <= |calls|
  {
    forall w :: 0 <= w < |waves| ==>
      waves[w] == Wave(Members(calls, at, w, false), Members(calls, at, w, true))
  }

  // ---------------------------------------------------------------------
  // The planner
  // ---------------------------------------------------------------------

  datatype Position = Position(wave: nat, mode: Mode)

  /** `last` holds, for every record seen, the position of the last call on it. */
  ghost predicate Latest(calls: seq<Call>, at: seq<nat>, last: map<nat, Position>)
    requires |at| <= |calls|
  {
    && (forall r, i :: 0 <= i < |at| && r in calls[i].records ==> r in last)
    && (forall r :: r in last ==> exists i: nat :: LastOn(calls, at, r, i) && last[r] == Position(at[i], calls[i].mode))
  }

  ghost predicate LastOn(calls: seq<Call>, at: seq<nat>, r: nat, i: nat)
    requires |at| <= |calls|
  {
    i < |at| && r in calls[i].records && forall k :: i < k < |at| ==> r !in calls[k].records
  }

  /** The last call on a record is the strictest of all calls on it. */
  lemma LastIsStrictest(calls: seq<Call>, at: seq<nat>, r: nat, i: nat, k: nat, call: Call)
    requires |at| <= |calls| && Obeys(calls, at) && LastOn(calls, at, r, i) && 0 <= k < |at| && r in calls[k].records
    ensures at[k] + Step(calls[k], call) <= at[i] + Step(calls[i], call)
  {
    if k < i {
      assert Share(calls[k], calls[i]);
    }
  }

  function Max(a: nat, b: nat): nat { if a >= b then a else b }

  /** A wave is late enough for the calls so far on record `r`, or for all calls
      that share a record with this one. */
  ghost predicate LateFor(calls: seq<Call>, at: seq<nat>, call: Call, r: nat, wave: nat)
    requires |at| <= |calls|
  {
    forall k :: 0 <= k < |at| && r in calls[k].records ==> at[k] + Step(calls[k], call) <= wave
  }

  ghost predicate Late(calls: seq<Call>, at: seq<nat>, call: Call, wave: nat)
    requires |at| <= |calls|
  {
    forall k :: 0 <= k < |at| && Share(calls[k], call) ==> at[k] + Step(calls[k], call) <= wave
  }

  /** A wave is not later than some call needs. */
  ghost predicate Needed(calls: seq<Call>, at: seq<nat>, call: Call, wave: nat)
    requires |at| <= |calls|
  {
    wave > 0 ==> exists k :: 0 <= k < |at| && Share(calls[k], call) && wave == at[k] + Step(calls[k], call)
  }

  /** What the last call on a record requires is what all calls on it require. */
  lemma LastRequires(calls: seq<Call>, at: seq<nat>, last: map<nat, Position>, call: Call, r: nat)
    requires |at| <= |calls| && Tight(calls, at) && Latest(calls, at, last) && r in call.records
    ensures r !in last ==> LateFor(calls, at, call, r, 0)
    ensures r in last ==>
      var required := last[r].wave + (if last[r].mode != call.mode then 1 else 0);
      LateFor(calls, at, call, r, required) && Needed(calls, at, call, required)
  {
    if r in last {
      var i: nat :| LastOn(calls, at, r, i) && last[r] == Position(at[i], calls[i].mode);
      forall k | 0 <= k < |at| && r in calls[k].records
        ensures at[k] + Step(calls[k], call) <= at[i] + Step(calls[i], call)
      {
        LastIsStrictest(calls, at, r, i, k, call);
      }
      assert Share(calls[i], call);
    }
  }

  lemma LateForAll(calls: seq<Call>, at: seq<nat>, call: Call, wave: nat)
    requires |at| <= |calls| && forall m :: 0 <= m < |call.records| ==> LateFor(calls, at, call, call.records[m], wave)
    ensures Late(calls, at, call, wave)
  {
    forall k | 0 <= k < |at| && Share(calls[k], call) ensures at[k] + Step(calls[k], call) <= wave {
      var r :| r in calls[k].records && r in call.records;
      var m :| 0 <= m < |call.records| && call.records[m] == r;
      assert LateFor(calls, at, call, call.records[m], wave);
    }
  }

  lemma LaterStill(calls: seq<Call>, at: seq<nat>, call: Call, r: nat, wave: nat, later: nat)
    requires |at| <= |calls| && LateFor(calls, at, call, r, wave) && wave <= later
    ensures LateFor(calls, at, call, r, later)
  {
  }

  /** The loop over the records of one call. */
  method WaveFor(calls: seq<Call>, ghost at: seq<nat>, last: map<nat, Position>, call: Call) returns (wave: nat)
    requires |at| <= |calls| && Tight(calls, at) && Latest(calls, at, last)
    ensures Late(calls, at, call, wave) && Needed(calls, at, call, wave)
  {
    wave := 0;
    for n := 0 to |call.records|
      invariant forall m :: 0 <= m < n ==> LateFor(calls, at, call, call.records[m], wave)
      invariant Needed(calls, at, call, wave)
    {
      hide LateFor, Needed, Tight, Latest;
      var r := call.records[n];
      LastRequires(calls, at, last, call, r);
      ghost var before := wave;
      if r in last {
        wave := Max(wave, last[r].wave + (if last[r].mode != call.mode then 1 else 0));
      }
      forall m | 0 <= m < n ensures LateFor(calls, at, call, call.records[m], wave) {
        LaterStill(calls, at, call, call.records[m], before, wave);
      }
      assert LateFor(calls, at, call, r, wave) by {
        LaterStill(calls, at, call, r, if r in last then last[r].wave + (if last[r].mode != call.mode then 1 else 0)
            else 0, wave);
      }
    }
    LateForAll(calls, at, call, wave);
  }

  /** Placing the next call keeps the plan tight. */
  lemma TightNext(calls: seq<Call>, at: seq<nat>, wave: nat)
    requires |at| < |calls| && Tight(calls, at)
    requires Late(calls, at, calls[|at|], wave) && Needed(calls, at, calls[|at|], wave)
    ensures Tight(calls, at + [wave])
  {
    hide Share;
    var next := at + [wave];
    assert Obeys(calls, next);
    forall j | 0 <= j < |next| && next[j] > 0
      ensures exists i :: 0 <= i < j && Share(calls[i], calls[j]) && next[j] == next[i] + Step(calls[i], calls[j])
    {
      var k :| 0 <= k < j && Share(calls[k], calls[j]) && next[j] == at[k] + Step(calls[k], calls[j]);
      assert next[k] == at[k];
    }
  }

  /** The loop that records the call's position for each of its records. */
  method Record(calls: seq<Call>, ghost at: seq<nat>, last: map<nat, Position>, wave: nat, call: Call)
    returns (next: map<nat, Position>)
    requires |at| < |calls| && call == calls[|at|] && Latest(calls, at, last)
    ensures Latest(calls, at + [wave], next)
  {
    next := last;
    for n := 0 to |call.records|
      invariant forall r :: r in next <==> r in last || r in call.records[..n]
      invariant forall r :: r in next ==>
        next[r] == if r in call.records[..n] then Position(wave, call.mode) else last[r]
    {
      next := next[call.records[n] := Position(wave, call.mode)];
    }
    assert call.records[..|call.records|] == call.records;
    LatestNext(calls, at, last, wave, next);
  }

  lemma LatestNext(calls: seq<Call>, at: seq<nat>, last: map<nat, Position>, wave: nat, next: map<nat, Position>)
    requires |at| < |calls| && Latest(calls, at, last)
    requires forall r :: r in next <==> r in last || r in calls[|at|].records
    requires forall r :: r in next ==>
      next[r] == if r in calls[|at|].records then Position(wave, calls[|at|].mode) else last[r]
    ensures Latest(calls, at + [wave], next)
  {
    var now := at + [wave];
    forall r, i | 0 <= i < |now| && r in calls[i].records ensures r in next {
      assert i < |at| ==> r in last;
    }
    hide LastOn;
    forall r | r in next
      ensures exists i: nat :: LastOn(calls, now, r, i) && next[r] == Position(now[i], calls[i].mode)
    {
      if r in calls[|at|].records {
        NewestOn(calls, at, wave, r);
      } else {
        var i: nat :| LastOn(calls, at, r, i) && last[r] == Position(at[i], calls[i].mode);
        StillLastOn(calls, at, wave, r, i);
      }
    }
  }

  lemma NewestOn(calls: seq<Call>, at: seq<nat>, wave: nat, r: nat)
    requires |at| < |calls| && r in calls[|at|].records
    ensures LastOn(calls, at + [wave], r, |at|) && (at + [wave])[|at|] == wave
  {
  }

  lemma StillLastOn(calls: seq<Call>, at: seq<nat>, wave: nat, r: nat, i: nat)
    requires |at| < |calls| && r !in calls[|at|].records && LastOn(calls, at, r, i)
    ensures i < |at| && (at + [wave])[i] == at[i] && LastOn(calls, at + [wave], r, i)
  {
  }

  ghost predicate Used(at: seq<nat>, w: nat) { exists i :: 0 <= i < |at| && at[i] == w }

  lemma UsedNext(at: seq<nat>, wave: nat)
    ensures forall w :: Used(at, w) || w == wave ==> Used(at + [wave], w)
  {
    var now := at + [wave];
    assert now[|at|] == wave;
    forall w | Used(at, w) ensures Used(now, w) {
      var i :| 0 <= i < |at| && at[i] == w;
      assert now[i] == w;
    }
  }

  lemma {:induction false} UnusedEmpty(calls: seq<Call>, at: seq<nat>, w: nat)
    requires |at| <= |calls| && forall i :: 0 <= i < |at| ==> at[i] < w
    ensures Members(calls, at, w, true) == [] == Members(calls, at, w, false)
  {
    if at != [] {
      UnusedEmpty(calls, at[..|at| - 1], w);
    }
  }

  /** Adds the call to its wave, opening the wave first if it is new. */
  method Place(calls: seq<Call>, n: nat, ghost at: seq<nat>, waves: seq<Wave>, wave: nat) returns (next: seq<Wave>)
    requires |at| == n < |calls| && Listed(calls, at, waves) && wave <= |waves|
    requires forall i :: 0 <= i < |at| ==> at[i] < |waves|
    ensures Listed(calls, at + [wave], next) && |next| == Max(|waves|, wave + 1)
  {
    next := waves;
    while |next| <= wave
      invariant Listed(calls, at, next) && waves <= next && |next| <= Max(|waves|, wave + 1)
    {
      UnusedEmpty(calls, at, |next|);
      next := next + [Wave([], [])];
    }
    if calls[n].mode == WaitUntilVisible {
      next := next[wave := next[wave].(visible := next[wave].visible + [n])];
    } else {
      next := next[wave := next[wave].(applied := next[wave].applied + [n])];
    }
    assert (at + [wave])[..|at|] == at;
  }

  /** What the loop over the calls keeps. */
  ghost predicate Planned(calls: seq<Call>, at: seq<nat>, waves: seq<Wave>, last: map<nat, Position>) {
    && |at| <= |calls| && Tight(calls, at) && Listed(calls, at, waves) && Latest(calls, at, last)
    && (forall i :: 0 <= i < |at| ==> at[i] < |waves|)
    && (forall w :: 0 <= w < |waves| ==> Used(at, w))
  }

  /** One call of the outer loop. */
  method PlanNext(calls: seq<Call>, n: nat, ghost at: seq<nat>, waves: seq<Wave>, last: map<nat, Position>)
    returns (next: seq<Wave>, after: map<nat, Position>, ghost placed: seq<nat>)
    requires Planned(calls, at, waves, last) && |at| == n < |calls|
    ensures Planned(calls, placed, next, after) && |placed| == n + 1
  {
    hide Tight, Listed, Latest, Obeys, Used, Share, Late;
    var wave := WaveFor(calls, at, last, calls[n]);
    assert wave <= |waves|;
    TightNext(calls, at, wave);
    after := Record(calls, at, last, wave, calls[n]);
    next := Place(calls, n, at, waves, wave);
    placed := at + [wave];
    UsedNext(at, wave);
  }

  /** `planMutationWaves`: the plan obeys the rule, is the least that does
      (`TightIsLeast`), has no empty wave, and lists each wave's calls in
      submission order (`MembersExact`). */
  method PlanMutationWaves(calls: seq<Call>) returns (waves: seq<Wave>, ghost at: seq<nat>)
    ensures |at| == |calls| && Tight(calls, at) && Listed(calls, at, waves)
    ensures forall i :: 0 <= i < |calls| ==> at[i] < |waves|
    ensures forall w :: 0 <= w < |waves| ==> waves[w].applied != [] || waves[w].visible != []
  {
    waves, at := [], [];
    var last: map<nat, Position> := map[];
    for n := 0 to |calls|
      invariant |at| == n && Planned(calls, at, waves, last)
    {
      hide Planned;
      waves, last, at := PlanNext(calls, n, at, waves, last);
    }
    forall w | 0 <= w < |waves| ensures waves[w].applied != [] || waves[w].visible != [] {
      hide Tight, Latest;
      assert Used(at, w);
      var i :| 0 <= i < |at| && at[i] == w;
      MembersExact(calls, at, w, calls[i].mode == WaitUntilVisible);
    }
  }
}
