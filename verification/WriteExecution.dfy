/** The conditional write executor: attempts, chunks and commits
    (internal/service/write.go, executeConditionalWrites and below). */
module WriteExecution {
  import opened Options
  import opened WriteFolding
  import opened ConditionalWrites
  import opened WriteTries
  import opened WriteReports
  import opened WriteReturns

  datatype Candidate = Candidate(group: nat, commit: Commit)

  function Ids(cs: seq<Candidate>): (ids: seq<nat>)
    ensures |ids| == |cs|
  {
    seq(|cs|, i requires 0 <= i < |cs| => cs[i].group)
  }

  lemma SplitAt(s: seq<nat>, n: nat)
    requires n < |s|
    ensures multiset(s) == multiset(s[..n]) + multiset{s[n]} + multiset(s[n + 1..])
    ensures multiset(s[..n + 1]) == multiset(s[..n]) + multiset{s[n]}
    ensures multiset(s[n..]) == multiset{s[n]} + multiset(s[n + 1..])
  {
    assert s == s[..n] + [s[n]] + s[n + 1..];
    assert s[..n + 1] == s[..n] + [s[n]];
    assert s[n..] == [s[n]] + s[n + 1..];
  }

  lemma Tally(a: multiset<nat>, b: multiset<nat>, c: multiset<nat>, d: multiset<nat>, x: nat)
    requires a + b == c + d
    ensures (a + multiset{x}) + b == c + (d + multiset{x}) == a + (b + multiset{x})
  {
    assert (a + multiset{x}) + b == (a + b) + multiset{x};
    assert c + (d + multiset{x}) == (c + d) + multiset{x};
  }

  /** In a list without repetition, an element is neither done yet nor repeated. */
  lemma OnceAt(base: multiset<nat>, ids: seq<nat>, n: nat)
    requires n < |ids| && Once(base + multiset(ids))
    ensures (base + multiset(ids[..n]))[ids[n]] == 0
    ensures forall i :: n < i < |ids| ==> ids[i] != ids[n]
  {
    SplitAt(ids, n);
    assert (base + multiset(ids))[ids[n]] <= 1;
    forall i | n < i < |ids| ensures ids[i] != ids[n] {
      assert ids[n + 1..][i - n - 1] in multiset(ids[n + 1..]);
    }
  }

  /** Handling element `n` of a list without repetition, one way or the other. */
  lemma TallyNext(done: multiset<nat>, conflicts: seq<nat>, base: multiset<nat>, ids: seq<nat>, n: nat)
    requires n < |ids| && Once(base + multiset(ids)) && done + multiset(conflicts) == base + multiset(ids[..n])
    ensures forall i :: n <= i < |ids| ==> done[ids[i]] == 0
    ensures forall i :: n < i < |ids| ==> ids[i] != ids[n]
    ensures (done + multiset{ids[n]}) + multiset(conflicts) == base + multiset(ids[..n + 1])
    ensures done + multiset(conflicts + [ids[n]]) == base + multiset(ids[..n + 1])
  {
    SplitAt(ids, n);
    OnceAt(base, ids, n);
    forall i | n <= i < |ids| ensures done[ids[i]] == 0 {
      OnceAt(base, ids, i);
      assert ids[..i] == ids[..n] + ids[n..i];
      assert multiset(ids[..i]) == multiset(ids[..n]) + multiset(ids[n..i]);
      assert (done + multiset(conflicts))[ids[i]] == (base + multiset(ids[..n]))[ids[i]];
    }
    Tally(done, multiset(conflicts), base, multiset(ids[..n]), ids[n]);
    assert multiset(conflicts + [ids[n]]) == multiset(conflicts) + multiset{ids[n]};
  }

  /** What a log holds beyond an earlier state of it. */
  function Since(earlier: seq<Event>, log: seq<Event>): seq<Event> {
    if |earlier| <= |log| then log[|earlier|..] else []
  }

  lemma SinceNext(earlier: seq<Event>, log: seq<Event>, e: Event)
    requires earlier <= log
    ensures earlier <= log + [e] && Since(earlier, log + [e]) == Since(earlier, log) + [e]
  {
    assert (log + [e])[..|earlier|] == log[..|earlier|];
  }

  lemma SinceNothing(log: seq<Event>)
    ensures log <= log && Since(log, log) == []
  {
  }

  /** The groups completed beyond `base` and those in `conflicts` make up `ids[..n]`. */
  ghost predicate Shared(groups: Groups, completed: seq<nat>, base: multiset<nat>, ids: seq<nat>, n: nat,
                         conflicts: seq<nat>) {
    && n <= |ids| && base <= multiset(completed)
    && multiset(completed) + multiset(conflicts) == base + multiset(ids[..n])
    && (forall i :: 0 <= i < |conflicts| ==> conflicts[i] < |groups|)
  }

  /** The next group is new. */
  lemma SharedNew(groups: Groups, before: seq<nat>, base: multiset<nat>, ids: seq<nat>, n: nat, conflicts: seq<nat>)
    requires n < |ids| && Once(base + multiset(ids)) && Shared(groups, before, base, ids, n, conflicts)
    ensures forall i :: n <= i < |ids| ==> ids[i] !in before
    ensures forall i :: n < i < |ids| ==> ids[i] != ids[n]
  {
    TallyNext(multiset(before), conflicts, base, ids, n);
    assert forall i :: n <= i < |ids| ==> multiset(before)[ids[i]] == 0;
  }

  /** The next group is completed or a conflict. */
  lemma SharedNext(groups: Groups, before: seq<nat>, after: seq<nat>, base: multiset<nat>, ids: seq<nat>, n: nat,
                   conflicts: seq<nat>, conflict: bool)
    requires n < |ids| && ids[n] < |groups| && Once(base + multiset(ids))
    requires Shared(groups, before, base, ids, n, conflicts)
    requires multiset(after) == multiset(before) + (if conflict then multiset{} else multiset{ids[n]})
    ensures Shared(groups, after, base, ids, n + 1, conflicts + (if conflict then [ids[n]] else []))
  {
    TallyNext(multiset(before), conflicts, base, ids, n);
    assert conflicts + [] == conflicts;
  }

  // ---------------------------------------------------------------------
  // The pace of an attempt
  // ---------------------------------------------------------------------

  /** The groups in `late` have met a conflict in the attempt; all other groups
      that are not completed have not written in it. */
  datatype Pace = Pace(attempt: nat, late: seq<nat>)

  ghost predicate Paced(groups: Groups, log: seq<Event>, completed: seq<nat>, pace: Pace) {
    forall k :: 0 <= k < |groups| && k !in completed ==>
      |Tries(log, groups[k].key)| == pace.attempt + (if k in pace.late then 1 else 0)
  }

  lemma PacedStart(groups: Groups)
    ensures Paced(groups, [], [], Pace(0, []))
  {
  }

  lemma PacedMore(groups: Groups, log: seq<Event>, before: seq<nat>, after: seq<nat>, pace: Pace)
    requires Paced(groups, log, before, pace) && forall k :: k in before ==> k in after
    ensures Paced(groups, log, after, pace)
  {
  }

  /** The group of a write is late or completed. */
  lemma PacedWrite(groups: Groups, log: seq<Event>, before: seq<nat>, after: seq<nat>, pace: Pace, k: nat, e: Event)
    requires DistinctKeys(groups) && Paced(groups, log, before, pace) && forall x :: x in before ==> x in after
    requires k < |groups| && k !in before && k !in pace.late && e.key == groups[k].key
    ensures |Tries(log, e.key)| == pace.attempt
    ensures k in after ==> Paced(groups, log + [e], after, pace)
    ensures after == before ==> Paced(groups, log + [e], after, pace.(late := pace.late + [k]))
  {
    hide Tries;
    forall x | 0 <= x < |groups| && x !in after
      ensures x != k ==> Tries(log + [e], groups[x].key) == Tries(log, groups[x].key)
      ensures x == k ==> |Tries(log + [e], groups[x].key)| == |Tries(log, groups[x].key)| + 1
    {
      TriesNext(log, e, groups[x].key);
    }
  }

  /** All groups that are left met a conflict, so the next attempt may begin. */
  lemma PacedNext(groups: Groups, log: seq<Event>, completed: seq<nat>, pace: Pace)
    requires Paced(groups, log, completed, pace)
    requires forall k :: 0 <= k < |groups| && k !in completed ==> k in pace.late
    ensures Paced(groups, log, completed, Pace(pace.attempt + 1, []))
  {
  }

  class Executor {
    const groups: Groups
    const luas: Luas
    const owners: seq<nat>
    const callers: nat
    const batched: bool
    const managed: bool
    const maxReadBytes: nat
    const limit: nat
    const backend: Backend
    const results: array<WriteResult>
    const allowance: Returns
    /** The results and the log when the execution started. */
    ghost const initial: seq<WriteResult>
    ghost const earlier: seq<Event>
    var completed: seq<nat>
    ghost var pace: Pace

    constructor (groups: Groups, luas: Luas, owners: seq<nat>, callers: nat, batched: bool, managed: bool,
                 maxReadBytes: nat, limit: nat, backend: Backend, results: array<WriteResult>, allowance: Returns)
      requires Disjoint(groups, results.Length)
          && forall k :: 0 <= k < |groups| ==> Owned(groups[k].ops, owners, callers)
      requires AllReset(groups, results[..])
      requires backend.Faithful()
      requires Funded(results[..], allowance.State())
      ensures this.groups == groups && this.luas == luas && this.owners == owners && this.callers == callers
      ensures this.backend == backend && this.results == results && this.allowance == allowance && completed == []
      ensures this.limit == limit && pace == Pace(0, [])
      ensures initial == results[..] && earlier == backend.log
      ensures Valid() && forall k :: 0 <= k < |groups| ==> Clean(groups[k].ops, results[..])
    {
      hide Consistent, Funded, Disjoint, Clean, AllReset, Since, Paced;
      StartsConsistent(luas, limit, groups, results[..]);
      this.groups, this.luas, this.owners, this.callers := groups, luas, owners, callers;
      this.batched, this.managed, this.maxReadBytes, this.limit := batched, managed, maxReadBytes, limit;
      this.backend, this.results, this.allowance := backend, results, allowance;
      initial, earlier, completed, pace := results[..], backend.log, [], Pace(0, []);
      SinceNothing(backend.log);
      PacedStart(groups);
    }

    /** The writes of this execution. */
    ghost function Recent(): seq<Event>
      reads backend
    {
      Since(earlier, backend.log)
    }

    ghost function State(): World
      reads this, results, backend
    {
      World(initial, results[..], Recent(), completed)
    }

    ghost predicate Valid()
      reads this, results, backend, allowance
    {
      && backend.Faithful() && earlier <= backend.log
      && Consistent(luas, limit, groups, State())
      && Paced(groups, Recent(), completed, pace)
      && Funded(results[..], allowance.State())
      && (forall k :: 0 <= k < |groups| ==> Owned(groups[k].ops, owners, callers))
    }

    lemma AreDisjoint()
      requires Valid()
      ensures Disjoint(groups, results.Length)
      ensures forall k :: 0 <= k < |groups| ==> DistinctIndexes(groups[k].ops, results.Length)
    {
    }

    /** Group `k` has an attempt left, the current one. */
    lemma HasTime(k: nat)
      requires Valid() && k < |groups| && k !in completed && k !in pace.late && pace.attempt < limit
      ensures InTime(limit, groups[k].ops, Recent(), groups[k].key)
    {
    }

    ghost predicate Waiting(c: Candidate, attempt: nat)
      reads this, results, allowance
    {
      && c.group < |groups| && c.group !in pace.late
      && DistinctIndexes(groups[c.group].ops, results.Length)
      && Covered(groups[c.group].ops, c.commit.document, allowance.sizes)
      && Ready(luas(attempt), backend.history, groups[c.group].key, groups[c.group].ops, results[..], c.commit)
    }

    // -------------------------------------------------------------------
    // Evaluating one group
    // -------------------------------------------------------------------

    /** `prepareWriteGroup` or `prepareBatchedWriteGroup`, depending on whether
        callers have their own budgets. */
    method Evaluate(k: nat, stored: ReadResult, attempt: nat, inputs: array<Budget>, outputs: array<Budget>)
      returns (included: bool, commit: Commit, ghost p: Progress)
      requires k < |groups| && DistinctIndexes(groups[k].ops, results.Length) && Owned(groups[k].ops, owners, callers)
      requires inputs != outputs && inputs.Length == outputs.Length == callers
      requires GenuineRead(backend.history, groups[k].key, stored)
      requires forall i :: 0 <= i < |groups[k].ops| ==> results[groups[k].ops[i].index].revision == None
      modifies results, inputs, outputs
      ensures included == p.included && commit == p.commit
      ensures Evaluated(luas(attempt), backend.history, groups[k].key, groups[k].ops, results[..], stored, p)
      ensures SameOutside(groups[k].ops, old(results[..]), results[..])
    {
      var ops := groups[k].ops;
      var lua := luas(attempt);
      hide Fold, FoldParts, Reported, Evaluated;
      if batched {
        p := FoldParts(lua, ops, owners, 0, NewBatch(stored, inputs[..], outputs[..])).fold;
        EvaluatedParts(lua, backend.history, groups[k].key, ops, owners, results[..], stored, inputs[..], outputs[..]);
        included, commit := PrepareBatchedWriteGroup(ops, owners, stored, lua, results, inputs, outputs);
      } else {
        p := Fold(lua, ops, stored);
        EvaluatedFold(lua, backend.history, groups[k].key, ops, results[..], stored);
        included, commit := PrepareWriteGroup(ops, stored, lua, results);
      }
    }

    /** `complete`: settle what the group's results retain and publish them. */
    method Complete(k: nat)
      requires k < |groups| && k !in completed && Disjoint(groups, results.Length)
      requires Owing(groups[k].ops, results[..], allowance.State()) && |allowance.sizes| == results.Length
      requires forall i :: 0 <= i < |groups[k].ops| ==>
                 Retained(results[groups[k].ops[i].index]) <= allowance.sizes[groups[k].ops[i].index]
      modifies this`completed, allowance
      ensures completed == old(completed) + [k]
      ensures Funded(results[..], allowance.State())
      ensures Steady(groups, completed, old(allowance.sizes), allowance.sizes)
    {
      assert DistinctIndexes(groups[k].ops, results.Length);
      hide Disjoint, Conserved;
      ghost var a := allowance.State();
      allowance.Settle(groups[k].ops, results[..]);
      CompletedFunds(groups, completed, results[..], a, allowance.State(), k);
      completed := completed + [k];
    }

    ghost predicate Allowed(k: nat, failure: Failure)
      requires k < |groups|
      reads backend
    {
      Fitting(limit, groups[k].ops, Recent(), groups[k].key, failure)
    }

    /** Report a failure for a whole group and complete it. */
    method GiveUp(k: nat, failure: Failure)
      requires Valid() && k < |groups| && k !in completed && Allowed(k, failure)
      modifies results, this`completed, allowance
      ensures Valid() && completed == old(completed) + [k]
      ensures SameOutside(groups[k].ops, old(results[..]), results[..])
      ensures Reports(k, failure) && Steady(groups, completed, old(allowance.sizes), allowance.sizes)
    {
      hide Consistent, Finish, Disjoint, Funded, Owing, AllReport, SameOutside, Retained, Steady, Paced, Fitting;
      GivenUp(luas, limit, groups, State(), k, failure, allowance.State());
      ApplyWriteGroupResult(groups[k].ops, results, StoredFailure(failure));
      Complete(k);
      PacedMore(groups, Recent(), old(completed), completed, pace);
    }

    // -------------------------------------------------------------------
    // Committing candidates
    // -------------------------------------------------------------------

    /** The storage call of `commitWriteCandidates`. */
    method WriteAll(cs: seq<Candidate>, attempt: nat) returns (outcomes: seq<Stored>, ghost events: seq<Event>)
      requires backend.Faithful() && earlier <= backend.log && forall i :: 0 <= i < |cs| ==> cs[i].group < |groups|
      modifies backend
      ensures backend.Faithful() && earlier <= backend.log && Recent() == old(Recent()) + events
      ensures |outcomes| == |events| == |cs|
      ensures forall i :: 0 <= i < |cs| ==> Landed(cs[i], attempt, events[i]) && events[i].outcome == outcomes[i]
    {
      hide Since, Landed;
      outcomes, events := [], [];
      for n := 0 to |cs|
        invariant backend.Faithful() && earlier <= backend.log && Recent() == old(Recent()) + events
        invariant |outcomes| == |events| == n
        invariant forall i :: 0 <= i < n ==> Landed(cs[i], attempt, events[i]) && events[i].outcome == outcomes[i]
      {
        ghost var log := backend.log;
        var outcome := backend.WriteOne(groups[cs[n].group].key, attempt, cs[n].commit);
        ghost var e := backend.log[|log|];
        assert backend.log == log + [e];
        SinceNext(earlier, log, e);
        assert Landed(cs[n], attempt, e) by { LandedNow(cs[n], attempt, e); }
        outcomes, events := outcomes + [outcome], events + [e];
      }
    }

    lemma LandedNow(c: Candidate, attempt: nat, e: Event)
      requires c.group < |groups| && backend.Recorded(groups[c.group].key, attempt, c.commit, e)
      ensures Landed(c, attempt, e)
    {
    }

    /** The event of a candidate's write. */
    ghost predicate Landed(c: Candidate, attempt: nat, e: Event) {
      c.group < |groups| && backend.Recorded(groups[c.group].key, attempt, c.commit, e)
    }

    /** Apply the outcome of commit `n`: a conflict leaves the group to be
        retried, anything else completes it; later candidates stay ready. */
    method Settle(cs: seq<Candidate>, n: nat, attempt: nat, outcome: Stored, ghost log: seq<Event>, ghost e: Event)
      requires n < |cs| && cs[n].group !in completed
      requires forall i :: n <= i < |cs| ==> Waiting(cs[i], attempt)
      requires forall i :: n < i < |cs| ==> cs[i].group != cs[n].group
      requires Consistent(luas, limit, groups, World(initial, results[..], log, completed))
      requires Funded(results[..], allowance.State())
      requires forall i :: n < i < |cs| ==> cs[i].group !in completed
      requires Landed(cs[n], attempt, e) && e.outcome == outcome
      requires Paced(groups, log, completed, pace) && pace.attempt == attempt < limit
      modifies results, this`completed, this`pace, allowance
      ensures Consistent(luas, limit, groups, World(initial, results[..], log + [e], completed))
      ensures Paced(groups, log + [e], completed, pace)
      ensures pace == old(pace).(late := old(pace.late) + (if outcome.StoredConflict? then [cs[n].group] else []))
      ensures Funded(results[..], allowance.State())
      ensures Steady(groups, completed, old(allowance.sizes), allowance.sizes)
      ensures forall k :: k in old(completed) ==> k in completed
      ensures multiset(completed) == old(multiset(completed))
          + (if outcome.StoredConflict? then multiset{} else multiset{cs[n].group})
      ensures cs[n].group < |groups| && forall i :: n < i < |cs| ==> Waiting(cs[i], attempt)
      ensures SameOutside(groups[cs[n].group].ops, old(results[..]), results[..])
    {
      hide Consistent, Ready, Report, Disjoint, Funded, Steady, Covered, Owing, Open, SameOutside, Retained, Paced;
      hide DistinctIndexes, DistinctKeys, Tries;
      var k := cs[n].group;
      ghost var w := World(initial, results[..], log, completed);
      ghost var sizes := allowance.sizes;
      AreDistinct(w);
      if outcome.StoredConflict? {
        PacedWrite(groups, log, completed, completed, pace, k, e);
        ConflictStep(luas, limit, groups, w, k, e);
        SteadyRefl(groups, completed, sizes);
        OutsideSelf(groups[k].ops, results[..]);
        pace := pace.(late := pace.late + [k]);
        return;
      }
      PacedWrite(groups, log, completed, completed + [k], pace, k, e);
      IsOpen(luas, limit, groups, w, k);
      FundedSizes(results[..], allowance.State());
      CommitStep(luas, limit, backend.history, groups, w, k, e);
      ReportRetains(groups[k].key, groups[k].ops, w.results, log, outcome, cs[n].commit.document, sizes);
      AttachAll(k, outcome, cs[n].commit.document);
      NowOwing(groups[k].key, groups[k].ops, log, w.results, results[..], allowance.State());
      Complete(k);
      KeepWaiting(cs, n, attempt, w.results, sizes);
    }

    lemma AreDistinct(w: World)
      requires Consistent(luas, limit, groups, w)
      ensures DistinctKeys(groups) && Disjoint(groups, |w.results|)
    {
    }

    /** `applyWriteGroupResult` followed by `attachWriteDocument`. */
    method AttachAll(k: nat, outcome: Stored, document: Document)
      requires k < |groups| && DistinctIndexes(groups[k].ops, results.Length)
      modifies results
      ensures results[..] == Report(old(results[..]), groups[k].ops, outcome, document)
    {
      hide Finish;
      var ops := groups[k].ops;
      ApplyWriteGroupResult(ops, results, outcome);
      ghost var finished := results[..];
      for n := 0 to |ops|
        invariant results[..] == Attach(finished, ops[..n], document)
      {
        assert ops[..n + 1][..n] == ops[..n];
        var i := ops[n].index;
        if ops[n].returnDocument && results[i].status == Applied {
          results[i] := results[i].(document := Some(document));
        }
      }
      assert ops[..|ops|] == ops;
    }

    /** The groups done so far and those left for a retry make up `ids[..n]`. */
    ghost predicate Tallied(base: multiset<nat>, ids: seq<nat>, n: nat, conflicts: seq<nat>)
      reads this
    {
      Shared(groups, completed, base, ids, n, conflicts)
    }

    lemma WaitingKnown(cs: seq<Candidate>, attempt: nat)
      requires forall i :: 0 <= i < |cs| ==> Waiting(cs[i], attempt)
      ensures forall i :: 0 <= i < |cs| ==> cs[i].group < |groups|
    {
    }

    /** `commitWriteCandidates` on the first `count` candidates: each of them is
        completed or returned as a conflict that its write met, exactly once; the
        others stay ready. */
    method Commit(cs: seq<Candidate>, count: nat, attempt: nat) returns (failed: bool, conflicts: seq<nat>)
      requires Valid() && count <= |cs| && Once(multiset(completed) + multiset(Ids(cs)))
      requires forall i :: 0 <= i < |cs| ==> Waiting(cs[i], attempt)
      requires pace.attempt == attempt < limit
      modifies results, this`completed, this`pace, backend, allowance
      ensures !failed ==> Valid() && Tallied(old(multiset(completed)), Ids(cs), count, conflicts)
      ensures !failed ==> pace == Pace(attempt, old(pace.late) + conflicts)
      ensures !failed ==> forall i :: count <= i < |cs| ==> Waiting(cs[i], attempt)
    {
      hide Consistent, Waiting, Once, Ids, Funded, Paced;
      failed, conflicts := false, [];
      assert pace.late + [] == pace.late;
      var ended: bool := *;
      var retained: bool := *;
      if count == 0 {
        return;
      }
      if ended || (!retained && !managed) {
        failed := true;
        return;
      }
      if !retained {
        GiveUpCandidates(cs, count, attempt, Failure(ResourceExhausted, true, OfBudget));
        return;
      }
      ghost var log := Recent();
      assert forall i :: 0 <= i < |cs| ==> cs[i].group < |groups| by { WaitingKnown(cs, attempt); }
      var outcomes, events := WriteAll(cs[..count], attempt);
      failed := *;
      if failed {
        return;
      }
      conflicts := SettleAll(cs, count, attempt, outcomes, log, events);
    }

    method GiveUpCandidates(cs: seq<Candidate>, count: nat, attempt: nat, failure: Failure)
      requires Valid() && count <= |cs| && Once(multiset(completed) + multiset(Ids(cs)))
      requires forall i :: 0 <= i < |cs| ==> Waiting(cs[i], attempt)
      requires pace.attempt < limit && failure.cause != OfRetries
      modifies results, this`completed, allowance
      ensures Valid() && Tallied(old(multiset(completed)), Ids(cs), count, [])
      ensures forall i :: count <= i < |cs| ==> Waiting(cs[i], attempt)
    {
      hide Valid, Once, Waiting;
      ghost var base := multiset(completed);
      for n := 0 to count
        invariant Valid() && Tallied(base, Ids(cs), n, [])
        invariant forall i :: n <= i < |cs| ==> Waiting(cs[i], attempt)
      {
        hide Tallied;
        GiveUpCandidate(cs, n, attempt, failure, base);
      }
    }

    method GiveUpCandidate(cs: seq<Candidate>, n: nat, attempt: nat, failure: Failure, ghost base: multiset<nat>)
      requires Valid() && n < |cs| && Once(base + multiset(Ids(cs))) && Tallied(base, Ids(cs), n, [])
      requires pace.attempt < limit && failure.cause != OfRetries
      requires forall i :: n <= i < |cs| ==> Waiting(cs[i], attempt)
      modifies results, this`completed, allowance
      ensures Valid() && Tallied(base, Ids(cs), n + 1, [])
      ensures forall i :: n < i < |cs| ==> Waiting(cs[i], attempt)
    {
      hide Valid, Once, Disjoint, SameOutside, Steady, Ready, Covered;
      AreDisjoint();
      assert forall i :: n <= i < |cs| ==> cs[i].group == Ids(cs)[i];
      TallyNext(multiset(completed), [], base, Ids(cs), n);
      ghost var before, sizes := results[..], allowance.sizes;
      HasTime(cs[n].group);
      GiveUp(cs[n].group, failure);
      KeepWaiting(cs, n, attempt, before, sizes);
    }

    method SettleNext(cs: seq<Candidate>, n: nat, attempt: nat, outcome: Stored, ghost log: seq<Event>, ghost e: Event,
                      conflicts: seq<nat>, ghost base: multiset<nat>)
      returns (left: seq<nat>)
      requires n < |cs| && Once(base + multiset(Ids(cs))) && Tallied(base, Ids(cs), n, conflicts)
      requires forall i :: n <= i < |cs| ==> Waiting(cs[i], attempt)
      requires Consistent(luas, limit, groups, World(initial, results[..], log, completed))
      requires Funded(results[..], allowance.State())
      requires Landed(cs[n], attempt, e) && e.outcome == outcome
      requires Paced(groups, log, completed, pace) && pace.attempt == attempt < limit
      modifies results, this`completed, this`pace, allowance
      ensures Consistent(luas, limit, groups, World(initial, results[..], log + [e], completed))
      ensures Paced(groups, log + [e], completed, pace)
      ensures |left| >= |conflicts| && left[..|conflicts|] == conflicts
      ensures pace == Pace(attempt, old(pace.late) + left[|conflicts|..])
      ensures Funded(results[..], allowance.State())
      ensures forall i :: n < i < |cs| ==> Waiting(cs[i], attempt)
      ensures Tallied(base, Ids(cs), n + 1, left)
    {
      hide Consistent, Waiting, Once, SameOutside, Funded, Steady, Paced, Landed, Shared;
      ghost var ids, before := Ids(cs), completed;
      var k := cs[n].group;
      assert forall i :: n <= i < |cs| ==> cs[i].group == ids[i];
      assert k < |groups| by { WaitingKnown(cs[n..], attempt); }
      SharedNew(groups, completed, base, ids, n, conflicts);
      Settle(cs, n, attempt, outcome, log, e);
      SharedNext(groups, before, completed, base, ids, n, conflicts, outcome.StoredConflict?);
      left := conflicts + (if outcome.StoredConflict? then [k] else []);
    }

    method SettleAll(cs: seq<Candidate>, count: nat, attempt: nat, outcomes: seq<Stored>,
                     ghost log: seq<Event>, ghost events: seq<Event>)
      returns (conflicts: seq<nat>)
      requires count <= |cs| && Once(multiset(completed) + multiset(Ids(cs)))
      requires Consistent(luas, limit, groups, World(initial, results[..], log, completed))
      requires Funded(results[..], allowance.State())
      requires |outcomes| == |events| == count
      requires forall i :: 0 <= i < |cs| ==> Waiting(cs[i], attempt)
      requires forall i :: 0 <= i < count ==>
                 Landed(cs[i], attempt, events[i]) && events[i].outcome == outcomes[i]
      requires Paced(groups, log, completed, pace) && pace.attempt == attempt < limit
      modifies results, this`completed, this`pace, allowance
      ensures Consistent(luas, limit, groups, World(initial, results[..], log + events, completed))
      ensures Paced(groups, log + events, completed, pace)
      ensures pace == Pace(attempt, old(pace.late) + conflicts)
      ensures Funded(results[..], allowance.State())
      ensures Tallied(old(multiset(completed)), Ids(cs), count, conflicts)
      ensures forall i :: count <= i < |cs| ==> Waiting(cs[i], attempt)
    {
      hide Consistent, Waiting, Once, Funded, Paced;
      conflicts := [];
      ghost var base := multiset(completed);
      assert log + events[..0] == log;
      for n := 0 to count
        invariant Consistent(luas, limit, groups, World(initial, results[..], log + events[..n], completed))
        invariant Paced(groups, log + events[..n], completed, pace)
        invariant pace == Pace(attempt, old(pace.late) + conflicts)
        invariant Tallied(base, Ids(cs), n, conflicts)
        invariant forall i :: n <= i < |cs| ==> Waiting(cs[i], attempt)
        invariant Funded(results[..], allowance.State())
      {
        assert log + events[..n] + [events[n]] == log + events[..n + 1];
        var left := SettleNext(cs, n, attempt, outcomes[n], log + events[..n], events[n], conflicts, base);
        assert old(pace.late) + conflicts + left[|conflicts|..] == old(pace.late) + left;
        conflicts := left;
      }
      assert events[..count] == events;
    }

    /** Candidates later in the list are other groups, so they stay ready. */
    lemma KeepWaiting(cs: seq<Candidate>, n: nat, attempt: nat, before: seq<WriteResult>, sizes: seq<nat>)
      requires Steady(groups, completed, sizes, allowance.sizes)
      requires forall i :: n < i < |cs| ==> cs[i].group !in completed && cs[i].group !in pace.late
      requires n < |cs| && (forall i :: n < i < |cs| ==> cs[i].group != cs[n].group) && Disjoint(groups, |before|)
          && results.Length == |before|
      requires cs[n].group < |groups| && SameOutside(groups[cs[n].group].ops, before, results[..])
      requires forall i :: n <= i < |cs| ==>
                 && cs[i].group < |groups| && DistinctIndexes(groups[cs[i].group].ops, |before|)
                 && Ready(luas(attempt), backend.history, groups[cs[i].group].key, groups[cs[i].group].ops, before,
                          cs[i].commit)
                 && Covered(groups[cs[i].group].ops, cs[i].commit.document, sizes)
      ensures forall i :: n < i < |cs| ==> Waiting(cs[i], attempt)
    {
      hide Ready, Covered, Steady;
      forall i | n < i < |cs| ensures Waiting(cs[i], attempt) {
        CoveredSteady(groups, completed, cs[i].group, cs[i].commit.document, sizes, allowance.sizes);
        StaysReady(groups, luas(attempt), backend.history, before, results[..], cs[n].group, cs[i].group, cs[i].commit);
      }
    }

    ghost predicate Reports(k: nat, failure: Failure)
      reads this, results
    {
      k < |groups| && AllReport(groups[k].ops, results[..], failure)
    }

    method GiveUpAll(ids: seq<nat>, failure: Failure)
      requires Valid() && Once(multiset(completed) + multiset(ids))
      requires forall i :: 0 <= i < |ids| ==> ids[i] < |groups| && Allowed(ids[i], failure)
      modifies results, this`completed, allowance
      ensures Valid() && multiset(completed) == old(multiset(completed)) + multiset(ids)
      ensures forall i :: 0 <= i < |ids| ==> Reports(ids[i], failure)
    {
      hide Valid, Once, Disjoint, SameOutside, Steady, AllReport, Allowed;
      AreDisjoint();
      for n := 0 to |ids|
        invariant Valid() && multiset(completed) == old(multiset(completed)) + multiset(ids[..n])
        invariant forall i :: 0 <= i < n ==> Reports(ids[i], failure)
      {
        ghost var before := results[..];
        SplitAt(ids, n);
        OnceAt(old(multiset(completed)), ids, n);
        assert multiset(completed)[ids[n]] == 0;
        GiveUp(ids[n], failure);
        KeepReports(old(multiset(completed)), ids, n, failure, before);
      }
      assert ids[..|ids|] == ids;
    }

    lemma KeepReports(base: multiset<nat>, ids: seq<nat>, n: nat, failure: Failure, before: seq<WriteResult>)
      requires n < |ids| && Once(base + multiset(ids)) && Disjoint(groups, |before|) && |before| == results.Length
      requires forall i :: 0 <= i < |ids| ==> ids[i] < |groups|
      requires SameOutside(groups[ids[n]].ops, before, results[..])
      requires forall i :: 0 <= i < n ==> AllReport(groups[ids[i]].ops, before, failure)
      ensures forall i :: 0 <= i < n ==> Reports(ids[i], failure)
    {
      hide Once, SameOutside;
      forall i | 0 <= i < n ensures Reports(ids[i], failure) {
        OnceAt(base, ids, i);
        OutsideIsSame(groups, ids[n], ids[i], before, results[..]);
      }
    }

    // -------------------------------------------------------------------
    // Direct puts
    // -------------------------------------------------------------------

    ghost predicate Immediate(c: Candidate)
      reads this, results, allowance
    {
      && c.group < |groups| && groups[c.group].ops != [] && DirectPut(groups[c.group].ops)
      && c.commit == Direct(groups[c.group].ops) && Clean(groups[c.group].ops, results[..])
      && Covered(groups[c.group].ops, c.commit.document, allowance.sizes)
    }

    /** Apply the outcome of a direct put, which is final whatever it is. */
    method SettleDirect(cs: seq<Candidate>, n: nat, outcome: Stored, ghost log: seq<Event>, ghost e: Event,
                        attempt: nat)
      requires n < |cs| && cs[n].group !in completed
      requires forall i :: n <= i < |cs| ==> Immediate(cs[i])
      requires forall i :: n < i < |cs| ==> cs[i].group != cs[n].group
      requires Consistent(luas, limit, groups, World(initial, results[..], log, completed))
      requires Funded(results[..], allowance.State())
      requires forall i :: n < i < |cs| ==> cs[i].group !in completed
      requires Landed(cs[n], attempt, e) && e.outcome == outcome
      requires Paced(groups, log, completed, pace) && pace == Pace(0, []) && attempt == 0
      modifies results, this`completed, allowance
      ensures Consistent(luas, limit, groups, World(initial, results[..], log + [e], completed))
      ensures Paced(groups, log + [e], completed, pace)
      ensures Funded(results[..], allowance.State())
      ensures completed == old(completed) + [cs[n].group]
      ensures forall i :: n < i < |cs| ==> Immediate(cs[i])
    {
      hide Consistent, Report, Disjoint, Funded, Steady, Covered, Owing, Open, SameOutside, Retained, Paced, Tries;
      hide DistinctIndexes, DistinctKeys;
      var k := cs[n].group;
      ghost var w, sizes := World(initial, results[..], log, completed), allowance.sizes;
      AreDistinct(w);
      PacedWrite(groups, log, completed, completed + [k], pace, k, e);
      IsOpen(luas, limit, groups, w, k);
      FundedSizes(results[..], allowance.State());
      DirectStep(luas, limit, groups, w, k, e);
      ReportRetains(groups[k].key, groups[k].ops, w.results, log, outcome, cs[n].commit.document, sizes);
      AttachAll(k, outcome, cs[n].commit.document);
      NowOwing(groups[k].key, groups[k].ops, log, w.results, results[..], allowance.State());
      Complete(k);
      forall i | n < i < |cs| ensures Immediate(cs[i]) {
        OutsideIsSame(groups, k, cs[i].group, w.results, results[..]);
        CoveredSteady(groups, completed, cs[i].group, cs[i].commit.document, sizes, allowance.sizes);
      }
    }

    method SettleDirectAll(cs: seq<Candidate>, outcomes: seq<Stored>, ghost log: seq<Event>, ghost events: seq<Event>,
                           attempt: nat)
      requires Once(multiset(completed) + multiset(Ids(cs)))
      requires Consistent(luas, limit, groups, World(initial, results[..], log, completed))
      requires Funded(results[..], allowance.State())
      requires |outcomes| == |events| == |cs|
      requires forall i :: 0 <= i < |cs| ==> Immediate(cs[i])
      requires forall i :: 0 <= i < |cs| ==>
                 Landed(cs[i], attempt, events[i]) && events[i].outcome == outcomes[i]
      requires Paced(groups, log, completed, pace) && pace == Pace(0, []) && attempt == 0
      modifies results, this`completed, allowance
      ensures Consistent(luas, limit, groups, World(initial, results[..], log + events, completed))
      ensures Paced(groups, log + events, completed, pace)
      ensures Funded(results[..], allowance.State())
      ensures multiset(completed) == old(multiset(completed)) + multiset(Ids(cs))
    {
      hide Consistent, Once, Immediate, Funded, Paced;
      ghost var ids := Ids(cs);
      ghost var base := multiset(completed);
      assert log + events[..0] == log;
      for n := 0 to |cs|
        invariant Consistent(luas, limit, groups, World(initial, results[..], log + events[..n], completed))
        invariant Paced(groups, log + events[..n], completed, pace)
        invariant multiset(completed) == base + multiset(ids[..n])
        invariant forall i :: n <= i < |cs| ==> Immediate(cs[i])
        invariant Funded(results[..], allowance.State())
      {
        assert log + events[..n] + [events[n]] == log + events[..n + 1];
        assert forall i :: n <= i < |cs| ==> cs[i].group == ids[i];
        assert multiset(completed) + multiset([]) == base + multiset(ids[..n]);
        TallyNext(multiset(completed), [], base, ids, n);
        SettleDirect(cs, n, outcomes[n], log + events[..n], events[n], attempt);
      }
      assert events[..|cs|] == events && ids[..|cs|] == ids;
    }

    /** The loop body of `executePuts`: room for the returned document, or a
        failure for the whole group. */
    method ReservePut(ids: seq<nat>, n: nat, cs: seq<Candidate>, ghost base: multiset<nat>)
      returns (cs': seq<Candidate>)
      requires Valid() && n < |ids| && Once(base + multiset(ids))
      requires multiset(completed) + multiset(Ids(cs)) == base + multiset(ids[..n])
      requires forall i :: 0 <= i < |cs| ==> Immediate(cs[i])
      requires forall i :: 0 <= i < |ids| ==>
          ids[i] < |groups| && groups[ids[i]].ops != [] && DirectPut(groups[ids[i]].ops)
      requires forall i :: n <= i < |ids| ==> Clean(groups[ids[i]].ops, results[..])
      modifies results, this`completed, allowance
      ensures Valid() && multiset(completed) + multiset(Ids(cs')) == base + multiset(ids[..n + 1])
      ensures forall i :: 0 <= i < |cs'| ==> Immediate(cs'[i])
      ensures forall i :: n < i < |ids| ==> Clean(groups[ids[i]].ops, results[..])
    {
      hide Consistent, Once, Disjoint, Funded, Steady, Covered, SameOutside, Clean, DistinctIndexes, Ids, Paced, Tries;
      AreDisjoint();
      var k := ids[n];
      var c := Candidate(k, Direct(groups[k].ops));
      ghost var before, sizes := results[..], allowance.sizes;
      PutTally(multiset(completed), cs, c, base, ids, n);
      IsOpen(luas, limit, groups, State(), k);
      NowOwing(groups[k].key, groups[k].ops, Recent(), results[..], results[..], allowance.State());
      var reserved := Fund(k, c.commit.document);
      cs' := if reserved then cs + [c] else cs;
      if reserved {
        KeepImmediate(cs, before, sizes);
      } else {
        ghost var done, funds := completed, allowance.sizes;
        GiveUp(k, Failure(ResourceExhausted, true, OfBudget));
        SteadyTrans(groups, done, completed, sizes, funds, allowance.sizes);
        KeepOthersClean(k, ids, n, cs, before);
        KeepImmediate(cs, before, sizes);
      }
    }

    lemma KeepOthersClean(k: nat, ids: seq<nat>, n: nat, cs: seq<Candidate>, before: seq<WriteResult>)
      requires k < |groups| && Disjoint(groups, |before|) && |before| == results.Length && n < |ids|
      requires SameOutside(groups[k].ops, before, results[..])
      requires forall i :: n < i < |ids| ==> ids[i] < |groups| && ids[i] != k && Clean(groups[ids[i]].ops, before)
      requires forall i :: 0 <= i < |cs| ==> cs[i].group < |groups| && cs[i].group != k
      ensures forall i :: n < i < |ids| ==> Clean(groups[ids[i]].ops, results[..])
      ensures forall i :: 0 <= i < |cs| ==> SameFor(groups[cs[i].group].ops, before, results[..])
    {
      forall i | n < i < |ids| ensures Clean(groups[ids[i]].ops, results[..]) {
        OutsideIsSame(groups, k, ids[i], before, results[..]);
      }
      forall i | 0 <= i < |cs| ensures SameFor(groups[cs[i].group].ops, before, results[..]) {
        OutsideIsSame(groups, k, cs[i].group, before, results[..]);
      }
    }

    lemma KeepImmediate(cs: seq<Candidate>, before: seq<WriteResult>, sizes: seq<nat>)
      requires Steady(groups, completed, sizes, allowance.sizes)
      requires forall i :: 0 <= i < |cs| ==>
                 && cs[i].group < |groups| && cs[i].group !in completed && groups[cs[i].group].ops != []
                 && DirectPut(groups[cs[i].group].ops) && cs[i].commit == Direct(groups[cs[i].group].ops)
                 && Clean(groups[cs[i].group].ops, before)
                 && Covered(groups[cs[i].group].ops, cs[i].commit.document, sizes)
                 && SameFor(groups[cs[i].group].ops, before, results[..])
      ensures forall i :: 0 <= i < |cs| ==> Immediate(cs[i])
    {
      forall i | 0 <= i < |cs| ensures Immediate(cs[i]) {
        CoveredSteady(groups, completed, cs[i].group, cs[i].commit.document, sizes, allowance.sizes);
      }
    }

    /** `executePuts`: every group is completed exactly once. */
    method ExecutePuts(ids: seq<nat>) returns (failed: bool)
      requires Valid() && Once(multiset(completed) + multiset(ids)) && pace == Pace(0, [])
      requires forall i :: 0 <= i < |ids| ==>
          ids[i] < |groups| && groups[ids[i]].ops != [] && DirectPut(groups[ids[i]].ops)
      requires forall i :: 0 <= i < |ids| ==> Clean(groups[ids[i]].ops, results[..])
      modifies results, this`completed, backend, allowance
      ensures !failed ==> Valid() && multiset(completed) == old(multiset(completed)) + multiset(ids)
    {
      failed := false;
      var cs: seq<Candidate> := [];
      ghost var base := multiset(completed);
      IdsAppend([], Candidate(0, NoCommit));
      for n := 0 to |ids|
        invariant Valid() && multiset(completed) + multiset(Ids(cs)) == base + multiset(ids[..n])
        invariant forall i :: 0 <= i < |cs| ==> Immediate(cs[i])
        invariant forall i :: n <= i < |ids| ==> Clean(groups[ids[i]].ops, results[..])
      {
        hide Valid, Once, Immediate, Clean;
        cs := ReservePut(ids, n, cs, base);
      }
      assert ids[..|ids|] == ids;
      ghost var log := Recent();
      hide Consistent, Once, Paced;
      var outcomes, events := WriteAll(cs, 0);
      failed := *;
      if !failed {
        SettleDirectAll(cs, outcomes, log, events, 0);
      }
    }

    // -------------------------------------------------------------------
    // One chunk of snapshots
    // -------------------------------------------------------------------

    /** The body of `applyWriteSnapshots` for one group: complete it, or leave
        a candidate that waits for its commit. */
    method Propose(k: nat, stored: ReadResult, attempt: nat, inputs: array<Budget>, outputs: array<Budget>)
      returns (ready: bool, commit: Commit)
      requires Valid() && k < |groups| && k !in completed && GenuineRead(backend.history, groups[k].key, stored)
      requires k !in pace.late && pace.attempt < limit
      requires inputs != outputs && inputs.Length == outputs.Length == callers
      modifies results, this`completed, inputs, outputs, allowance
      ensures Valid() && SameOutside(groups[k].ops, old(results[..]), results[..])
      ensures Steady(groups, completed, old(allowance.sizes), allowance.sizes)
      ensures completed == old(completed) + (if ready then [] else [k])
      ensures ready ==> Waiting(Candidate(k, commit), attempt)
    {
      hide Valid, Evaluated, Steady, Owing, SameOutside, Waiting;
      ghost var before := results[..];
      ghost var p;
      ready, commit, p := EvaluateOpen(k, stored, attempt, inputs, outputs);
      ghost var evaluated := results[..];
      if !ready {
        Dismiss(k, attempt, stored, p);
        return;
      }
      ready := Offer(k, commit, attempt, stored, p);
      OutsideTwice(groups[k].ops, before, evaluated, results[..]);
    }

    /** The results of group `k` show the verdicts `p` and return nothing. */
    ghost predicate Judged(k: nat, attempt: nat, stored: ReadResult, p: Progress)
      reads this, results, allowance
      requires k < |groups|
    {
      && DistinctIndexes(groups[k].ops, results.Length)
      && Evaluated(luas(attempt), backend.history, groups[k].key, groups[k].ops, results[..], stored, p)
      && Owing(groups[k].ops, results[..], allowance.State())
      && (forall i :: 0 <= i < |groups[k].ops| ==> Retained(results[groups[k].ops[i].index]) == 0)
    }

    method EvaluateOpen(k: nat, stored: ReadResult, attempt: nat, inputs: array<Budget>, outputs: array<Budget>)
      returns (included: bool, commit: Commit, ghost p: Progress)
      requires Valid() && k < |groups| && k !in completed && GenuineRead(backend.history, groups[k].key, stored)
      requires inputs != outputs && inputs.Length == outputs.Length == callers
      modifies results, inputs, outputs
      ensures Valid() && Judged(k, attempt, stored, p) && included == p.included && commit == p.commit
      ensures SameOutside(groups[k].ops, old(results[..]), results[..])
    {
      ghost var w := State();
      IsOpen(luas, limit, groups, w, k);
      hide Consistent, Evaluated, DistinctIndexes, Funded, Owing, Paced, Orderly;
      included, commit, p := Evaluate(k, stored, attempt, inputs, outputs);
      EvaluatedStep(luas, limit, groups, w, k, luas(attempt), backend.history, results[..], stored, p);
      EvaluatedFunds(luas(attempt), backend.history, groups[k].key, groups[k].ops, w.log, w.results, results[..],
                     stored, p,
                     allowance.State());
    }

    /** A group without a candidate is completed. */
    method Dismiss(k: nat, ghost attempt: nat, ghost stored: ReadResult, ghost p: Progress)
      requires Valid() && k < |groups| && k !in completed && Judged(k, attempt, stored, p) && !p.included
      requires k !in pace.late && pace.attempt < limit
      modifies this`completed, allowance
      ensures Valid() && completed == old(completed) + [k]
      ensures Steady(groups, completed, old(allowance.sizes), allowance.sizes)
    {
      AreDisjoint();
      FundedSizes(results[..], allowance.State());
      HasTime(k);
      hide Consistent, Evaluated, DistinctIndexes, Disjoint, Funded, Owing, Steady, Paced, InTime;
      RefusedStep(luas, limit, groups, State(), k, luas(attempt), backend.history, stored, p);
      Complete(k);
      PacedMore(groups, Recent(), old(completed), completed, pace);
    }

    /** A candidate is funded and waits for its commit, or its group is given up:
        memory, the returned documents' allowance and, without caller budgets, the
        attempt's output may run out. */
    method Offer(k: nat, commit: Commit, ghost attempt: nat, ghost stored: ReadResult, ghost p: Progress)
      returns (ready: bool)
      requires Valid() && k < |groups| && k !in completed && Judged(k, attempt, stored, p) && p.included
          && commit == p.commit
      requires k !in pace.late && pace.attempt < limit
      modifies results, this`completed, allowance
      ensures Valid() && SameOutside(groups[k].ops, old(results[..]), results[..])
      ensures Steady(groups, completed, old(allowance.sizes), allowance.sizes)
      ensures completed == old(completed) + (if ready then [] else [k])
      ensures ready ==> Waiting(Candidate(k, commit), attempt)
    {
      hide Consistent, Evaluated, DistinctIndexes, Funded, Owing, Steady, Ready, Covered, Paced, Tries;
      HasTime(k);
      ready := *;
      if ready {
        ready := Fund(k, commit.document);
      } else {
        SteadyRefl(groups, completed, allowance.sizes);
      }
      if ready {
        ReadyNow(luas(attempt), backend.history, groups[k].key, groups[k].ops, results[..], commit, stored, p);
      } else {
        ghost var done, funds := completed, allowance.sizes;
        GiveUp(k, Failure(ResourceExhausted, true, OfBudget));
        SteadyTrans(groups, done, completed, old(allowance.sizes), funds, allowance.sizes);
      }
    }

    /** Reserve room for the documents that a group will return. */
    method Fund(k: nat, document: Document) returns (ok: bool)
      requires k < |groups| && k !in completed && DistinctIndexes(groups[k].ops, results.Length)
      requires Funded(results[..], allowance.State()) && Owing(groups[k].ops, results[..], allowance.State())
      modifies allowance
      ensures Funded(results[..], allowance.State())
      ensures Steady(groups, completed, old(allowance.sizes), allowance.sizes)
      ensures ok ==> Covered(groups[k].ops, document, allowance.sizes)
    {
      FundedSizes(results[..], allowance.State());
      hide Conserved;
      assert |seq(|groups[k].ops|, _ => true)| == |groups[k].ops|;
      var memory: seq<bool> :| |memory| == |groups[k].ops|;
      ok := allowance.Reserve(groups[k].ops, document, memory);
    }

    ghost predicate AllWaiting(cs: seq<Candidate>, attempt: nat)
      reads this, results, allowance
    {
      forall i :: 0 <= i < |cs| ==> Waiting(cs[i], attempt)
    }

    /** Every group of `ids[..n]` is completed, a candidate, a conflict or put off. */
    ghost predicate Sorted(base: multiset<nat>, ids: seq<nat>, n: nat, cs: seq<Candidate>, conflicts: seq<nat>,
                           deferred: seq<nat>)
      reads this
    {
      && n <= |ids| && |deferred| <= n && base <= multiset(completed)
      && multiset(completed) + multiset(Ids(cs)) + multiset(conflicts) + multiset(deferred) == base + multiset(ids[..n])
      && (forall i :: 0 <= i < |conflicts| ==> conflicts[i] < |groups|)
      && (forall i :: 0 <= i < |deferred| ==> deferred[i] < |groups|)
    }

    /** Candidates stay ready while another group is evaluated. */
    lemma KeepAll(cs: seq<Candidate>, m: nat, attempt: nat, before: seq<WriteResult>, sizes: seq<nat>)
      requires Steady(groups, completed, sizes, allowance.sizes)
          && forall i :: 0 <= i < |cs| ==> cs[i].group !in completed && cs[i].group !in pace.late
      requires m < |groups| && (forall i :: 0 <= i < |cs| ==> cs[i].group != m) && Disjoint(groups, |before|)
          && results.Length == |before|
      requires SameOutside(groups[m].ops, before, results[..])
      requires forall i :: 0 <= i < |cs| ==>
                 && cs[i].group < |groups| && DistinctIndexes(groups[cs[i].group].ops, |before|)
                 && Ready(luas(attempt), backend.history, groups[cs[i].group].key, groups[cs[i].group].ops, before,
                          cs[i].commit)
                 && Covered(groups[cs[i].group].ops, cs[i].commit.document, sizes)
      ensures AllWaiting(cs, attempt)
    {
      hide Ready, Covered, Steady;
      forall i | 0 <= i < |cs| ensures Waiting(cs[i], attempt) {
        CoveredSteady(groups, completed, cs[i].group, cs[i].commit.document, sizes, allowance.sizes);
        StaysReady(groups, luas(attempt), backend.history, before, results[..], m, cs[i].group, cs[i].commit);
      }
    }

    /** Commit the collected candidates to make room for candidate `c`. */
    method Flush(cs: seq<Candidate>, c: Candidate, attempt: nat, conflicts: seq<nat>, ghost base: multiset<nat>,
                 ghost ids: seq<nat>, ghost n: nat, ghost deferred: seq<nat>, ghost before: seq<nat>)
      returns (failed: bool, left: seq<nat>)
      requires Valid() && AllWaiting(cs + [c], attempt)
      requires Once(base + multiset(ids)) && Sorted(base, ids, n, cs + [c], conflicts, deferred)
      requires pace == Pace(attempt, before + conflicts) && attempt < limit
      modifies results, this`completed, this`pace, backend, allowance
      ensures !failed ==> Valid() && AllWaiting([c], attempt) && Sorted(base, ids, n, [c], left, deferred)
      ensures !failed ==> pace == Pace(attempt, before + left)
    {
      hide Valid, Waiting, Once, Ids;
      FlushTally(multiset(completed), cs, c, conflicts, deferred, base, ids, n);
      ghost var done := multiset(completed);
      left := conflicts;
      var more: seq<nat>;
      failed, more := Commit(cs + [c], |cs|, attempt);
      if !failed {
        left := conflicts + more;
        assert before + conflicts + more == before + left;
        assert (cs + [c])[|cs|] == c;
        FlushedTally(done, multiset(completed), cs, c, conflicts, more, deferred);
      }
    }

    /** One step of the loop of `applyWriteSnapshots`. */
    method ProposeNext(ids: seq<nat>, n: nat, reply: Reply, attempt: nat, inputs: array<Budget>, outputs: array<Budget>,
                       cs: seq<Candidate>, conflicts: seq<nat>, deferred: seq<nat>, outputBytes: nat,
                       ghost base: multiset<nat>, ghost before: seq<nat>)
      returns (failed: bool, cs': seq<Candidate>, conflicts': seq<nat>, deferred': seq<nat>, outputBytes': nat)
      requires Valid() && AllWaiting(cs, attempt) && inputs != outputs && inputs.Length == outputs.Length == callers
      requires n < |ids| && ids[n] < |groups| && Once(base + multiset(ids))
          && Sorted(base, ids, n, cs, conflicts, deferred)
      requires reply.Snapshot? ==> GenuineRead(backend.history, groups[ids[n]].key, reply.read)
      requires pace == Pace(attempt, before + conflicts) && attempt < limit && ids[n] !in before
      modifies results, this`completed, this`pace, backend, inputs, outputs, allowance
      ensures !failed ==> pace == Pace(attempt, before + conflicts')
      ensures !failed ==> Valid() && AllWaiting(cs', attempt) && Sorted(base, ids, n + 1, cs', conflicts', deferred')
      ensures !failed ==> |deferred'| == |deferred| + (if reply.Snapshot? then 0 else 1)
    {
      hide Valid, Once, AllWaiting, Ids;
      var k := ids[n];
      failed, cs', conflicts', deferred', outputBytes' := false, cs, conflicts, deferred, outputBytes;
      SortNext(multiset(completed), cs, conflicts, deferred, base, ids, n);
      if reply.WorkingSetFull? {
        deferred' := deferred + [k];
        return;
      }
      var ready, commit := ProposeKeeping(k, reply.read, attempt, inputs, outputs, cs);
      if !ready {
        assert multiset(completed) == old(multiset(completed)) + multiset{k};
        return;
      }
      var c := Candidate(k, commit);
      IdsAppend(cs, c);
      var bytes := |commit.document.payload| + Overhead;
      if batched && callers > 1 && |cs| > 0 && bytes > maxReadBytes - outputBytes {
        failed, conflicts' := Flush(cs, c, attempt, conflicts, base, ids, n + 1, deferred, before);
        cs', outputBytes' := [c], bytes;
      } else {
        cs', outputBytes' := cs + [c], outputBytes + bytes;
      }
    }

    /** Propose group `k` next to candidates of other groups. */
    method ProposeKeeping(k: nat, stored: ReadResult, attempt: nat, inputs: array<Budget>, outputs: array<Budget>,
                          ghost cs: seq<Candidate>)
      returns (ready: bool, commit: Commit)
      requires Valid() && k < |groups| && k !in completed && GenuineRead(backend.history, groups[k].key, stored)
      requires inputs != outputs && inputs.Length == outputs.Length == callers
      requires AllWaiting(cs, attempt) && k !in pace.late && pace.attempt < limit
      requires forall i :: 0 <= i < |cs| ==> cs[i].group != k && cs[i].group !in completed
      modifies results, this`completed, inputs, outputs, allowance
      ensures Valid() && completed == old(completed) + (if ready then [] else [k])
      ensures AllWaiting(cs, attempt)
          && (ready ==> AllWaiting(cs + [Candidate(k, commit)], attempt) && AllWaiting([Candidate(k, commit)], attempt))
    {
      hide Valid, Ready, Disjoint, SameOutside, Steady, Covered;
      AreDisjoint();
      ghost var before, sizes := results[..], allowance.sizes;
      ready, commit := Propose(k, stored, attempt, inputs, outputs);
      KeepAll(cs, k, attempt, before, sizes);
    }

    /** `applyWriteSnapshots`: every group of the chunk is completed, returned
        as a conflict, or put off, exactly once. */
    method ApplySnapshots(ids: seq<nat>, replies: seq<Reply>, attempt: nat, inputs: array<Budget>,
                          outputs: array<Budget>)
      returns (failed: bool, conflicts: seq<nat>, deferred: seq<nat>)
      requires Valid() && |replies| == |ids| && inputs != outputs && inputs.Length == outputs.Length == callers
      requires Once(multiset(completed) + multiset(ids))
      requires forall i :: 0 <= i < |ids| ==> ids[i] < |groups|
      requires forall i :: 0 <= i < |ids| && replies[i].Snapshot? ==>
          GenuineRead(backend.history, groups[ids[i]].key, replies[i].read)
      requires pace.attempt == attempt < limit && forall i :: 0 <= i < |ids| ==> ids[i] !in pace.late
      modifies results, this`completed, this`pace, backend, inputs, outputs, allowance
      ensures !failed ==> pace == Pace(attempt, old(pace.late) + conflicts)
      ensures !failed ==> Valid() && Sorted(old(multiset(completed)), ids, |ids|, [], conflicts, deferred)
      ensures !failed && (exists i :: 0 <= i < |ids| && replies[i].Snapshot?) ==> |deferred| < |ids|
    {
      hide Valid, AllWaiting, Once, Sorted, Ids;
      ghost var base := multiset(completed);
      var cs: seq<Candidate> := [];
      var outputBytes := 0;
      failed, conflicts, deferred := false, [], [];
      SortedNone(ids, attempt);
      ghost var before := pace.late;
      assert before + [] == before;
      for n := 0 to |ids|
        invariant Valid() && AllWaiting(cs, attempt) && Sorted(base, ids, n, cs, conflicts, deferred)
        invariant pace == Pace(attempt, before + conflicts)
        invariant |deferred| <= n && ((exists i :: 0 <= i < n && replies[i].Snapshot?) ==> |deferred| < n)
      {
        failed, cs, conflicts, deferred, outputBytes :=
          ProposeNext(ids, n, replies[n], attempt, inputs, outputs, cs, conflicts, deferred, outputBytes, base,
                      before);
        if failed {
          return;
        }
      }
      failed, conflicts := CommitRest(cs, attempt, ids, conflicts, deferred, base, before);
    }

    lemma SortedNone(ids: seq<nat>, attempt: nat)
      ensures Sorted(multiset(completed), ids, 0, [], [], []) && AllWaiting([], attempt)
    {
      IdsAppend([], Candidate(0, NoCommit));
    }

    /** Commit the candidates that are left at the end of a chunk. */
    method CommitRest(cs: seq<Candidate>, attempt: nat, ids: seq<nat>, conflicts: seq<nat>, ghost deferred: seq<nat>,
                      ghost base: multiset<nat>, ghost before: seq<nat>)
      returns (failed: bool, all: seq<nat>)
      requires Valid() && AllWaiting(cs, attempt) && Once(base + multiset(ids))
      requires Sorted(base, ids, |ids|, cs, conflicts, deferred)
      requires pace == Pace(attempt, before + conflicts) && attempt < limit
      modifies results, this`completed, this`pace, backend, allowance
      ensures !failed ==> pace == Pace(attempt, before + all)
      ensures !failed ==> Valid() && Sorted(base, ids, |ids|, [], all, deferred)
    {
      hide Valid, Once, Ids, Waiting;
      ghost var done := multiset(completed);
      CommitTally(done, cs, conflicts, deferred, base, ids);
      var more;
      failed, more := Commit(cs, |cs|, attempt);
      all := conflicts + more;
      if !failed {
        assert before + conflicts + more == before + all;
        CommittedTally(done, multiset(completed), cs, conflicts, more, deferred);
      }
    }

    // -------------------------------------------------------------------
    // Attempts
    // -------------------------------------------------------------------

    /** Every group of `ids` is completed or in `next`, exactly once. */
    ghost predicate Attempted(base: multiset<nat>, ids: seq<nat>, next: seq<nat>, pending: seq<nat>)
      reads this
    {
      && base <= multiset(completed)
      && multiset(completed) + multiset(next) + multiset(pending) == base + multiset(ids)
      && (forall i :: 0 <= i < |next| ==> next[i] < |groups|)
      && (forall i :: 0 <= i < |pending| ==> pending[i] < |groups|)
    }

    /** The records that a chunk reads. */
    method Addresses(ids: seq<nat>) returns (keys: seq<nat>)
      requires forall i :: 0 <= i < |ids| ==> ids[i] < |groups|
      ensures |keys| == |ids| && forall i :: 0 <= i < |ids| ==> keys[i] == groups[ids[i]].key
    {
      keys := [];
      for n := 0 to |ids|
        invariant |keys| == n && forall i :: 0 <= i < n ==> keys[i] == groups[ids[i]].key
      {
        keys := keys + [groups[ids[n]].key];
      }
    }

    /** One chunk of an attempt: read, apply, and put the rest back. */
    method ExecuteChunk(pending: seq<nat>, count: nat, attempt: nat, inputs: array<Budget>, outputs: array<Budget>,
                        next: seq<nat>, ghost base: multiset<nat>, ghost ids: seq<nat>)
      returns (failed: bool, next': seq<nat>, pending': seq<nat>, deferrals: nat)
      requires Valid() && inputs != outputs && inputs.Length == outputs.Length == callers
      requires 0 < count <= |pending| && Once(base + multiset(ids)) && Attempted(base, ids, next, pending)
      requires pace == Pace(attempt, next) && attempt < limit
      modifies results, this`completed, this`pace, backend, inputs, outputs, allowance
      ensures !failed ==> pace == Pace(attempt, next')
      ensures !failed ==> Valid() && Attempted(base, ids, next', pending') && |pending'| < |pending|
    {
      next', pending', deferrals := next, pending, 0;
      var batch := pending[..count];
      var replies;
      ghost var done := multiset(completed);
      ChunkTally(done, next, pending, base, ids, count);
      hide Consistent, Once, Paced;
      var keys := Addresses(batch);
      failed, replies := backend.Read(keys, batched && callers > 1, maxReadBytes);
      if failed {
        return;
      }
      var conflicts, deferred;
      failed, conflicts, deferred := ApplySnapshots(batch, replies, attempt, inputs, outputs);
      if failed {
        return;
      }
      ChunkedTally(done, multiset(completed), next, pending, conflicts, deferred, count);
      next' := next + conflicts;
      pending' := deferred + pending[count..];
      deferrals := |deferred|;
    }

    /** `executeWriteAttempt`: every group is completed or returned as a
        conflict exactly once, and one that is returned wrote once in this attempt
        and met a conflict. */
    method ExecuteAttempt(ids: seq<nat>, attempt: nat) returns (failed: bool, next: seq<nat>)
      requires Valid() && Once(multiset(completed) + multiset(ids)) && pace == Pace(attempt, []) && attempt < limit
      requires forall i :: 0 <= i < |ids| ==> ids[i] < |groups|
      modifies results, this`completed, this`pace, backend, allowance
      ensures !failed ==> Valid() && Attempted(old(multiset(completed)), ids, next, []) && pace == Pace(attempt, next)
      ensures !failed ==> forall i :: 0 <= i < |next| ==> ConflictOnce(Recent(), groups[next[i]].key, attempt)
    {
      ghost var base := multiset(completed);
      var inputs := new Budget[callers](_ => Budget(maxReadBytes, maxReadBytes));
      var outputs := new Budget[callers](_ => Budget(maxReadBytes, maxReadBytes));
      failed, next := false, [];
      var pending := ids;
      var most := |ids|;
      assert multiset(completed) + multiset(next) + multiset(pending) == base + multiset(ids);
      hide Valid, Once, ConflictOnce;
      while |pending| > 0
        invariant Valid() && Attempted(base, ids, next, pending) && pace == Pace(attempt, next)
        invariant |pending| > 0 ==> most > 0
        invariant inputs != outputs && inputs.Length == outputs.Length == callers && fresh(inputs) && fresh(outputs)
        decreases |pending|
      {
        var ended: bool := *;
        if ended {
          failed := true;
          return;
        }
        var resized: bool := *;
        if !resized {
          GiveUpPending(pending, next, base, ids);
          AllLate(base, ids, next);
          return;
        }
        var count := if most <= |pending| then most else |pending|;
        var deferrals;
        failed, next, pending, deferrals := ExecuteChunk(pending, count, attempt, inputs, outputs, next, base, ids);
        if failed {
          return;
        }
        if deferrals > 0 {
          most := if count - deferrals > 1 then count - deferrals else 1;
        }
      }
      AllLate(base, ids, next);
    }

    /** Memory for the rest of the attempt runs out. */
    method GiveUpPending(pending: seq<nat>, ghost next: seq<nat>, ghost base: multiset<nat>, ghost ids: seq<nat>)
      requires Valid() && Attempted(base, ids, next, pending) && Once(base + multiset(ids))
      requires pace.late == next && pace.attempt < limit
      modifies results, this`completed, allowance
      ensures Valid() && Attempted(base, ids, next, [])
    {
      PendingTally(multiset(completed), next, pending, base, ids);
      ChunkTally(multiset(completed), next, pending, base, ids, |pending|);
      forall i | 0 <= i < |pending| ensures Allowed(pending[i], Failure(ResourceExhausted, true, OfBudget)) {
        HasTime(pending[i]);
      }
      hide Valid, Once, Allowed;
      GiveUpAll(pending, Failure(ResourceExhausted, true, OfBudget));
    }

    /** A group that is late has met a conflict in this attempt. */
    lemma AllLate(base: multiset<nat>, ids: seq<nat>, next: seq<nat>)
      requires Valid() && Attempted(base, ids, next, []) && Once(base + multiset(ids)) && pace.late == next
      ensures forall i :: 0 <= i < |next| ==> ConflictOnce(Recent(), groups[next[i]].key, pace.attempt)
    {
      hide Consistent, Funded, Tries, Tried, ConflictOnce;
      forall i | 0 <= i < |next| ensures ConflictOnce(Recent(), groups[next[i]].key, pace.attempt) {
        assert next[i] in multiset(next);
        assert (multiset(completed) + multiset(next) + multiset([]))[next[i]] == (base + multiset(ids))[next[i]] <= 1;
        IsOpen(luas, limit, groups, State(), next[i]);
        AllConflicts(Recent(), groups[next[i]].key, pace.attempt);
      }
    }

    /** Every group is completed, or is in `ids` and needs a snapshot. */
    ghost predicate Rest(ids: seq<nat>)
      reads this
    {
      forall k :: 0 <= k < |groups| && k !in completed ==> k in ids && !DirectPut(groups[k].ops)
    }

    /** `executeConditionalWrites`: when it returns without an error, every
        group was completed exactly once, and it is told that its retries are used
        up exactly when all attempts met a conflict, so that nothing was written. */
    method ExecuteConditionalWrites(ids: seq<nat>) returns (failed: bool)
      requires Valid() && Once(multiset(completed) + multiset(ids)) && pace == Pace(0, []) && Rest(ids)
      requires forall i :: 0 <= i < |ids| ==> ids[i] < |groups|
      modifies results, this`completed, this`pace, backend, allowance
      ensures !failed ==> Valid() && multiset(completed) == old(multiset(completed)) + multiset(ids)
      ensures !failed ==> forall i :: 0 <= i < |ids| ==>
                RetriesRight(limit, groups[ids[i]].key, groups[ids[i]].ops, results[..], Recent())
    {
      ghost var base := multiset(completed);
      failed := false;
      var pending := ids;
      hide Valid, Once, RetriesRight, Rest;
      for attempt := 0 to limit
        invariant Valid() && Attempted(base, ids, pending, []) && Rest(pending) && pace == Pace(attempt, [])
      {
        if |pending| == 0 {
          break;
        }
        var ended: bool := *;
        if ended {
          failed := true;
          return;
        }
        pending, failed := Retry(pending, attempt, base, ids);
        if failed {
          return;
        }
      }
      Exhaust(pending, base, ids);
      AllTold(base, ids);
    }

    /** One more attempt at the groups that are left. */
    method Retry(pending: seq<nat>, attempt: nat, ghost base: multiset<nat>, ghost ids: seq<nat>)
      returns (next: seq<nat>, failed: bool)
      requires Valid() && Attempted(base, ids, pending, []) && Once(base + multiset(ids)) && Rest(pending)
      requires pace == Pace(attempt, []) && attempt < limit
      modifies results, this`completed, this`pace, backend, allowance
      ensures !failed ==> Valid() && Attempted(base, ids, next, []) && Rest(next) && pace == Pace(attempt + 1, [])
    {
      hide Valid, Once, ConflictOnce;
      RetryTally(multiset(completed), pending, base, ids);
      ghost var done := completed;
      failed, next := ExecuteAttempt(pending, attempt);
      if failed {
        return;
      }
      assert multiset(completed) + multiset(next) + multiset([]) == multiset(done) + multiset(pending);
      StillRest(done, pending, next);
      NextPace();
    }

    lemma StillRest(done: seq<nat>, pending: seq<nat>, next: seq<nat>)
      requires multiset(completed) + multiset(next) + multiset([]) == multiset(done) + multiset(pending)
      requires forall k :: 0 <= k < |groups| && k !in done ==> k in pending && !DirectPut(groups[k].ops)
      requires Once(multiset(done) + multiset(pending)) && multiset(done) <= multiset(completed)
      ensures Rest(next)
    {
      forall k | 0 <= k < |groups| && k !in completed ensures k in next && !DirectPut(groups[k].ops) {
        assert k !in multiset(completed) && multiset(done)[k] <= multiset(completed)[k];
        assert k !in multiset(done) && k !in done;
        assert k in multiset(pending);
        assert (multiset(completed) + multiset(next) + multiset([]))[k] == (multiset(done) + multiset(pending))[k];
      }
    }

    ghost method NextPace()
      requires Valid() && Rest(pace.late)
      modifies this`pace
      ensures Valid() && pace == Pace(old(pace.attempt) + 1, [])
    {
      hide Consistent, Funded, Tries;
      PacedNext(groups, Recent(), completed, pace);
      pace := Pace(pace.attempt + 1, []);
    }

    /** The groups that are left after the last attempt are given up. */
    method Exhaust(pending: seq<nat>, ghost base: multiset<nat>, ghost ids: seq<nat>)
      requires Valid() && Attempted(base, ids, pending, []) && Once(base + multiset(ids)) && Rest(pending)
      requires |pending| == 0 || pace == Pace(limit, [])
      modifies results, this`completed, allowance
      ensures Valid() && multiset(completed) == base + multiset(ids)
    {
      RetryTally(multiset(completed), pending, base, ids);
      forall i | 0 <= i < |pending| ensures Allowed(pending[i], UsedUp()) {
        assert pending[i] in multiset(pending);
        assert (multiset(completed) + multiset(pending))[pending[i]] <= 1;
      }
      hide Valid, Once, Allowed;
      GiveUpAll(pending, UsedUp());
    }

    lemma AllTold(base: multiset<nat>, ids: seq<nat>)
      requires Valid() && multiset(completed) == base + multiset(ids)
      requires forall i :: 0 <= i < |ids| ==> ids[i] < |groups|
      ensures forall i :: 0 <= i < |ids| ==>
                RetriesRight(limit, groups[ids[i]].key, groups[ids[i]].ops, results[..], Recent())
    {
      hide RetriesRight, Final, Orderly, Paced, Funded;
      forall i | 0 <= i < |ids|
        ensures RetriesRight(limit, groups[ids[i]].key, groups[ids[i]].ops, results[..], Recent())
      {
        assert ids[i] in multiset(ids);
        assert ids[i] in multiset(completed);
        assert GroupState(luas, limit, ids[i], groups[ids[i]], State());
        RetriesTold(luas, limit, groups[ids[i]].key, groups[ids[i]].ops, results[..], Recent());
      }
    }

    /** `executeWriteWave`: when it returns without an error, every group was
        completed exactly once, its report is explained by at most one storage
        write that was not refused by its precondition, and what it is told about
        its retries is right. */
    method ExecuteWriteWave() returns (failed: bool)
      requires Valid() && completed == [] && pace == Pace(0, [])
      requires forall k :: 0 <= k < |groups| ==> groups[k].ops != [] && Clean(groups[k].ops, results[..])
      modifies results, this`completed, this`pace, backend, allowance
      ensures !failed ==> Disjoint(groups, results.Length) && |completed| == |groups|
      ensures !failed ==> forall k :: 0 <= k < |groups| ==> multiset(completed)[k] == 1 && Over(k)
      // Nothing else is touched, and the log only grows.
      ensures !failed ==> backend.Faithful() && earlier <= backend.log && Framed(groups, initial, results[..])
      // The callers' allowances for returned documents balance with the documents.
      ensures !failed ==> Funded(results[..], allowance.State())
    {
      hide Consistent, Clean, Paced, Over;
      var puts, conditional, all := Partition();
      WaveTally(all, puts, conditional);
      failed := ExecutePuts(puts);
      if failed {
        return;
      }
      AreRest(all, puts, conditional);
      failed := ExecuteConditionalWrites(conditional);
      if !failed {
        AllFinal(all);
      }
    }

    lemma AreRest(all: seq<nat>, puts: seq<nat>, conditional: seq<nat>)
      requires |all| == |groups| && forall i :: 0 <= i < |groups| ==> all[i] == i
      requires multiset(puts) + multiset(conditional) == multiset(all) && multiset(completed) == multiset(puts)
      requires forall i :: 0 <= i < |conditional| ==>
          conditional[i] < |groups| && !DirectPut(groups[conditional[i]].ops)
      ensures Rest(conditional)
    {
      forall k | 0 <= k < |groups| && k !in completed ensures k in conditional {
        assert all[k] in multiset(all);
        assert k in multiset(puts) || k in multiset(conditional);
      }
    }

    /** Group `k` has its final report. */
    ghost predicate Over(k: nat)
      reads results, backend
      requires k < |groups|
    {
      && (forall i :: 0 <= i < |groups[k].ops| ==> groups[k].ops[i].index < results.Length)
      && Final(luas, limit, groups[k].key, groups[k].ops, results[..], Recent())
      && RetriesRight(limit, groups[k].key, groups[k].ops, results[..], Recent())
    }

    /** Single puts and unconditional chains need no snapshot. */
    method Partition() returns (puts: seq<nat>, conditional: seq<nat>, ghost all: seq<nat>)
      ensures |all| == |groups| && (forall i :: 0 <= i < |groups| ==> all[i] == i) && Once(multiset(all))
      ensures multiset(puts) + multiset(conditional) == multiset(all)
      ensures forall i :: 0 <= i < |puts| ==> puts[i] < |groups| && DirectPut(groups[puts[i]].ops)
      ensures forall i :: 0 <= i < |conditional| ==> conditional[i] < |groups| && !DirectPut(groups[conditional[i]].ops)
    {
      puts, conditional, all := [], [], [];
      for k := 0 to |groups|
        invariant multiset(puts) + multiset(conditional) == multiset(all)
        invariant |all| == k && forall i :: 0 <= i < k ==> all[i] == i
        invariant forall i :: 0 <= i < |puts| ==> puts[i] < |groups| && DirectPut(groups[puts[i]].ops)
        invariant forall i :: 0 <= i < |conditional| ==>
            conditional[i] < |groups| && !DirectPut(groups[conditional[i]].ops)
      {
        Tally(multiset(puts), multiset(conditional), multiset{}, multiset(all), k);
        if DirectPut(groups[k].ops) {
          puts := puts + [k];
        } else {
          conditional := conditional + [k];
        }
        all := all + [k];
      }
      EachOnce(all);
    }

    lemma AllFinal(all: seq<nat>)
      requires Valid() && multiset(completed) == multiset(all) && Once(multiset(all))
      requires |all| == |groups| && forall i :: 0 <= i < |groups| ==> all[i] == i
      ensures Disjoint(groups, results.Length) && |completed| == |groups| && Framed(groups, initial, results[..])
      ensures forall k :: 0 <= k < |groups| ==> multiset(completed)[k] == 1 && Over(k)
    {
      hide Final, Orderly, RetriesRight, Paced, Funded;
      assert |completed| == |multiset(completed)| == |multiset(all)|;
      forall k | 0 <= k < |groups| ensures multiset(completed)[k] == 1 && Over(k) {
        assert all[k] in multiset(all);
        assert k in completed;
        assert GroupState(luas, limit, k, groups[k], State());
        RetriesTold(luas, limit, groups[k].key, groups[k].ops, results[..], Recent());
      }
    }
  }

  lemma {:induction false} EachOnce(all: seq<nat>)
    requires forall i :: 0 <= i < |all| ==> all[i] == i
    ensures Once(multiset(all))
  {
    if all != [] {
      var n := |all| - 1;
      EachOnce(all[..n]);
      assert all == all[..n] + [all[n]];
      assert all[n] !in all[..n];
    }
  }

  lemma WaveTally(all: seq<nat>, puts: seq<nat>, conditional: seq<nat>)
    requires Once(multiset(all)) && multiset(puts) + multiset(conditional) == multiset(all)
    ensures Once(multiset([]) + multiset(puts))
    ensures Once((multiset([]) + multiset(puts)) + multiset(conditional))
    ensures (multiset([]) + multiset(puts)) + multiset(conditional) == multiset(all)
  {
    assert multiset([]) + multiset(puts) == multiset(puts);
    forall k ensures multiset(puts)[k] <= 1 {
      assert multiset(all)[k] <= 1;
    }
  }

  lemma PutTally(done: multiset<nat>, cs: seq<Candidate>, c: Candidate, base: multiset<nat>, ids: seq<nat>, n: nat)
    requires n < |ids| && Once(base + multiset(ids)) && done + multiset(Ids(cs)) == base + multiset(ids[..n])
    requires c.group == ids[n]
    ensures done[c.group] == 0 && forall i :: n < i < |ids| ==> ids[i] != c.group
    ensures forall i :: 0 <= i < |cs| ==> cs[i].group != c.group && done[cs[i].group] == 0
    ensures (done + multiset{c.group}) + multiset(Ids(cs)) == base + multiset(ids[..n + 1])
    ensures done + multiset(Ids(cs + [c])) == base + multiset(ids[..n + 1])
  {
    SortNext(done, cs, [], [], base, ids, n);
    OnceAt(base, ids, n);
    IdsAppend(cs, c);
  }

  lemma ChunkTally(done: multiset<nat>, next: seq<nat>, pending: seq<nat>, base: multiset<nat>, ids: seq<nat>,
                   count: nat)
    requires count <= |pending| && Once(base + multiset(ids))
        && done + multiset(next) + multiset(pending) == base + multiset(ids)
    ensures Once(done + multiset(pending[..count]))
    ensures forall i :: 0 <= i < count ==> pending[i] !in next && done[pending[i]] == 0
  {
    assert pending == pending[..count] + pending[count..];
    forall i | 0 <= i < count ensures pending[i] !in next && done[pending[i]] == 0 {
      assert pending[i] in multiset(pending);
      assert (done + multiset(next) + multiset(pending))[pending[i]] == (base + multiset(ids))[pending[i]] <= 1;
    }
    forall k ensures (done + multiset(pending[..count]))[k] <= 1 {
      assert (done + multiset(next) + multiset(pending))[k] == (base + multiset(ids))[k] <= 1;
      assert multiset(pending) == multiset(pending[..count]) + multiset(pending[count..]);
    }
  }

  lemma ChunkedTally(done: multiset<nat>, after: multiset<nat>, next: seq<nat>, pending: seq<nat>, conflicts: seq<nat>,
                     deferred: seq<nat>, count: nat)
    requires count <= |pending|
    requires after + multiset(Ids([])) + multiset(conflicts) + multiset(deferred)
          == done + multiset(pending[..count][..count])
    ensures after + multiset(next + conflicts) + multiset(deferred + pending[count..])
         == done + multiset(next) + multiset(pending)
  {
    assert pending[..count][..count] == pending[..count] && Ids([]) == [];
    assert pending == pending[..count] + pending[count..];
    assert multiset(pending) == multiset(pending[..count]) + multiset(pending[count..]);
    assert multiset(next + conflicts) == multiset(next) + multiset(conflicts);
    assert multiset(deferred + pending[count..]) == multiset(deferred) + multiset(pending[count..]);
    var settled := after + multiset(conflicts) + multiset(deferred);
    assert settled == after + multiset(Ids([])) + multiset(conflicts) + multiset(deferred);
    assert after + multiset(next + conflicts) + multiset(deferred + pending[count..])
        == settled + multiset(next) + multiset(pending[count..]);
    assert done + multiset(next) + multiset(pending)
        == (done + multiset(pending[..count])) + multiset(next) + multiset(pending[count..]);
  }

  lemma PendingTally(done: multiset<nat>, next: seq<nat>, pending: seq<nat>, base: multiset<nat>, ids: seq<nat>)
    requires Once(base + multiset(ids)) && done + multiset(next) + multiset(pending) == base + multiset(ids)
    ensures Once(done + multiset(pending))
    ensures (done + multiset(pending)) + multiset(next) + multiset([]) == base + multiset(ids)
  {
    forall k ensures (done + multiset(pending))[k] <= 1 {
      assert (done + multiset(next) + multiset(pending))[k] == (base + multiset(ids))[k] <= 1;
    }
    assert (done + multiset(pending)) + multiset(next) == done + multiset(next) + multiset(pending);
  }

  lemma RetryTally(done: multiset<nat>, pending: seq<nat>, base: multiset<nat>, ids: seq<nat>)
    requires Once(base + multiset(ids)) && done + multiset(pending) + multiset([]) == base + multiset(ids)
    ensures Once(done + multiset(pending)) && done + multiset(pending) == base + multiset(ids)
  {
    assert done + multiset(pending) + multiset([]) == done + multiset(pending);
  }

  lemma CommitTally(done: multiset<nat>, cs: seq<Candidate>, conflicts: seq<nat>, deferred: seq<nat>,
                    base: multiset<nat>, ids: seq<nat>)
    requires Once(base + multiset(ids))
    requires done + multiset(Ids(cs)) + multiset(conflicts) + multiset(deferred) == base + multiset(ids[..|ids|])
    ensures Once(done + multiset(Ids(cs)))
  {
    assert ids[..|ids|] == ids;
    forall k ensures (done + multiset(Ids(cs)))[k] <= 1 {
      assert (done + multiset(Ids(cs)) + multiset(conflicts) + multiset(deferred))[k] == (base + multiset(ids))[k] <= 1;
    }
  }

  lemma CommittedTally(done: multiset<nat>, after: multiset<nat>, cs: seq<Candidate>, conflicts: seq<nat>,
                       more: seq<nat>, deferred: seq<nat>)
    requires after + multiset(more) == done + multiset(Ids(cs)[..|cs|])
    ensures after + multiset(Ids([])) + multiset(conflicts + more) + multiset(deferred)
         == done + multiset(Ids(cs)) + multiset(conflicts) + multiset(deferred)
  {
    assert Ids(cs)[..|cs|] == Ids(cs) && Ids([]) == [];
    assert multiset(conflicts + more) == multiset(conflicts) + multiset(more);
    assert after + multiset(Ids([])) + multiset(conflicts + more) == (after + multiset(more)) + multiset(conflicts);
  }

  /** The next group is new, and may go to any of the four lists. */
  lemma SortNext(done: multiset<nat>, cs: seq<Candidate>, conflicts: seq<nat>, deferred: seq<nat>,
                 base: multiset<nat>, ids: seq<nat>, n: nat)
    requires n < |ids| && Once(base + multiset(ids))
    requires done + multiset(Ids(cs)) + multiset(conflicts) + multiset(deferred) == base + multiset(ids[..n])
    ensures done[ids[n]] == 0 && ids[n] !in Ids(cs) && ids[n] !in conflicts
    ensures forall i :: 0 <= i < |cs| ==> cs[i].group != ids[n] && done[cs[i].group] == 0
    ensures (done + multiset{ids[n]}) + multiset(Ids(cs)) + multiset(conflicts) + multiset(deferred)
        == base + multiset(ids[..n + 1])
    ensures done + (multiset(Ids(cs)) + multiset{ids[n]}) + multiset(conflicts) + multiset(deferred)
        == base + multiset(ids[..n + 1])
    ensures done + multiset(Ids(cs)) + multiset(conflicts) + multiset(deferred + [ids[n]])
        == base + multiset(ids[..n + 1])
  {
    var x := multiset{ids[n]};
    var all := done + multiset(Ids(cs)) + multiset(conflicts) + multiset(deferred);
    SplitAt(ids, n);
    OnceAt(base, ids, n);
    assert all[ids[n]] == 0;
    forall i | 0 <= i < |cs| ensures cs[i].group != ids[n] && done[cs[i].group] == 0 {
      assert Ids(cs)[i] == cs[i].group && Ids(cs)[i] in multiset(Ids(cs));
      assert all[Ids(cs)[i]] == (base + multiset(ids[..n]))[Ids(cs)[i]] <= (base + multiset(ids))[Ids(cs)[i]] <= 1;
    }
    assert base + multiset(ids[..n + 1]) == all + x;
    assert multiset(deferred + [ids[n]]) == multiset(deferred) + x;
    assert (done + x) + multiset(Ids(cs)) + multiset(conflicts) + multiset(deferred) == all + x;
    assert done + (multiset(Ids(cs)) + x) + multiset(conflicts) + multiset(deferred) == all + x;
    assert done + multiset(Ids(cs)) + multiset(conflicts) + (multiset(deferred) + x) == all + x;
  }

  lemma IdsAppend(cs: seq<Candidate>, c: Candidate)
    ensures Ids(cs + [c]) == Ids(cs) + [c.group]
    ensures multiset(Ids(cs + [c])) == multiset(Ids(cs)) + multiset{c.group}
    ensures multiset(Ids([c])) == multiset{c.group} && multiset(Ids([])) == multiset{}
  {
    assert Ids(cs + [c]) == Ids(cs) + [c.group];
    assert Ids([c]) == [c.group];
    assert Ids([]) == [];
  }

  /** The candidates to be flushed are groups that nothing else refers to. */
  lemma FlushTally(done: multiset<nat>, cs: seq<Candidate>, c: Candidate, conflicts: seq<nat>, deferred: seq<nat>,
                   base: multiset<nat>, ids: seq<nat>, n: nat)
    requires n <= |ids| && Once(base + multiset(ids))
    requires done + multiset(Ids(cs + [c])) + multiset(conflicts) + multiset(deferred) == base + multiset(ids[..n])
    ensures Once(done + multiset(Ids(cs + [c])))
  {
    IdsAppend(cs, c);
    assert ids == ids[..n] + ids[n..];
    assert multiset(ids) == multiset(ids[..n]) + multiset(ids[n..]);
    forall k ensures (done + multiset(Ids(cs + [c])))[k] <= 1 {
      assert (done + multiset(Ids(cs + [c])) + multiset(conflicts) + multiset(deferred))[k]
          == (base + multiset(ids[..n]))[k];
      assert (base + multiset(ids))[k] <= 1;
    }
  }

  lemma FlushedTally(done: multiset<nat>, after: multiset<nat>, cs: seq<Candidate>, c: Candidate, conflicts: seq<nat>,
                     more: seq<nat>, deferred: seq<nat>)
    requires after + multiset(more) == done + multiset(Ids(cs + [c])[..|cs|])
    ensures after + multiset(Ids([c])) + multiset(conflicts + more) + multiset(deferred)
         == done + multiset(Ids(cs + [c])) + multiset(conflicts) + multiset(deferred)
  {
    IdsAppend(cs, c);
    assert Ids(cs + [c])[..|cs|] == Ids(cs);
    assert multiset(conflicts + more) == multiset(conflicts) + multiset(more);
    assert after + multiset(Ids([c])) + multiset(conflicts + more)
        == (after + multiset(more)) + multiset(Ids([c])) + multiset(conflicts);
  }

  lemma OutsideSelf(ops: seq<Operation>, r: seq<WriteResult>)
    ensures SameOutside(ops, r, r)
  {
  }

  lemma OutsideTwice(ops: seq<Operation>, r: seq<WriteResult>, t: seq<WriteResult>, u: seq<WriteResult>)
    requires SameOutside(ops, r, t) && SameOutside(ops, t, u)
    ensures SameOutside(ops, r, u)
  {
  }
}
