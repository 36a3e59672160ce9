/** What the results of a group say about the storage writes made for it. */
module WriteReports {
  import opened Options
  import opened WriteFolding
  import opened ConditionalWrites
  import opened WriteTries
  import opened WriteReturns

  /** The ordered operations of one record. */
  datatype Group = Group(key: nat, ops: seq<Operation>)

  /** The groups of one execution: one group per record, and no two operations
      share a result. */
  type Groups = seq<Group>

  ghost predicate Apart(a: seq<Operation>, b: seq<Operation>) {
    forall i, j :: 0 <= i < |a| && 0 <= j < |b| ==> a[i].index != b[j].index
  }

  /** One group per record. */
  ghost predicate DistinctKeys(groups: Groups) {
    forall i, j :: 0 <= i < j < |groups| ==> groups[i].key != groups[j].key
  }

  ghost predicate Disjoint(groups: Groups, size: nat) {
    && DistinctKeys(groups)
    && (forall k :: 0 <= k < |groups| ==> DistinctIndexes(groups[k].ops, size))
    && (forall k, m :: 0 <= k < |groups| && 0 <= m < |groups| && k != m ==> Apart(groups[k].ops, groups[m].ops))
  }

  /** Which operations are left without a failure. */
  function Kept(ops: seq<Operation>, results: seq<WriteResult>): (kept: seq<bool>)
    requires forall i :: 0 <= i < |ops| ==> ops[i].index < |results|
    ensures |kept| == |ops|
  {
    seq(|ops|, i requires 0 <= i < |ops| => results[ops[i].index].failure == None)
  }

  /** The write at `j` is the only one for `k` that was not so refused. */
  ghost predicate OnlyWrite(log: seq<Event>, k: nat, j: nat) {
    && 0 <= j < |log| && log[j].key == k
    && (forall i :: 0 <= i < |log| && log[i].key == k && i != j ==> log[i].outcome.StoredConflict?)
  }

  ghost predicate AllFailed(ops: seq<Operation>, results: seq<WriteResult>)
    requires forall i :: 0 <= i < |ops| ==> ops[i].index < |results|
  {
    forall i :: 0 <= i < |ops| ==>
      var r := results[ops[i].index];
      r.failure.Some? && r.status != Applied && r.document == None
  }

  /** An operation is reported applied exactly when it has no failure, with the
      revision of the commit and, if asked for, its document. */
  ghost predicate Acknowledged(ops: seq<Operation>, results: seq<WriteResult>, e: Event)
    requires forall i :: 0 <= i < |ops| ==> ops[i].index < |results|
    requires e.outcome.StoredApplied?
  {
    forall i :: 0 <= i < |ops| ==>
      var r := results[ops[i].index];
      && (r.status == Applied <==> r.failure == None)
      && (r.status == Applied ==> r.revision == Some(e.outcome.revision))
      && r.document == (if ops[i].returnDocument && r.status == Applied then Some(e.commit.document) else None)
  }

  type Luas = nat -> Lua

  /** Operation `i` is reported as a sequential run from `base` meets it: written,
      refused with this failure, or refused for its caller's budget. */
  ghost predicate Meets(lua: Lua, ops: seq<Operation>, results: seq<WriteResult>, base: Option<Document>, i: nat)
    requires i < |ops| && forall i :: 0 <= i < |ops| ==> ops[i].index < |results|
  {
    var before := Replay(lua, ops[..i], Kept(ops, results)[..i], base);
    var r := results[ops[i].index];
    && before.Some?
    && (r.failure == None ==> Execute(lua, ops[i], before.value).Wrote?)
    && (r.failure.Some? ==>
          || r.failure.value.cause == OfBudget
          || Execute(lua, ops[i], before.value) == Refused(r.status, r.failure.value))
  }

  ghost predicate Sequential(lua: Lua, ops: seq<Operation>, results: seq<WriteResult>, base: Option<Document>)
    requires forall i :: 0 <= i < |ops| ==> ops[i].index < |results|
  {
    forall i :: 0 <= i < |ops| ==> Meets(lua, ops, results, base, i)
  }

  ghost predicate SomeKept(ops: seq<Operation>, results: seq<WriteResult>)
    requires forall i :: 0 <= i < |ops| ==> ops[i].index < |results|
  {
    exists i :: 0 <= i < |ops| && Kept(ops, results)[i]
  }

  /** The commit at `j` was applied, and it is the sequential run, on the record
      as it was at that instant, of exactly the operations reported applied; the
      others are reported as that run refuses them. */
  ghost predicate Committed(luas: Luas, k: nat, ops: seq<Operation>, results: seq<WriteResult>, log: seq<Event>, j: nat)
    requires forall i :: 0 <= i < |ops| ==> ops[i].index < |results|
  {
    && OnlyWrite(log, k, j)
    && log[j].outcome.StoredApplied?
    && Replay(luas(log[j].attempt), ops, Kept(ops, results), DocumentOf(log[j].before))
    == Some(Some(log[j].commit.document))
    && Acknowledged(ops, results, log[j])
    && Sequential(luas(log[j].attempt), ops, results, DocumentOf(log[j].before))
    && SomeKept(ops, results)
  }

  /** The only write that reached storage failed there, and every operation
      reports that failure. */
  ghost predicate FailedInStorage(k: nat, ops: seq<Operation>, results: seq<WriteResult>, log: seq<Event>, j: nat)
    requires forall i :: 0 <= i < |ops| ==> ops[i].index < |results|
  {
    && OnlyWrite(log, k, j)
    && log[j].outcome.StoredFailure? && log[j].outcome.failure.cause == OfStorage
    && AllFailed(ops, results)
    && (forall i :: 0 <= i < |ops| ==> results[ops[i].index].failure == Some(log[j].outcome.failure))
  }

  /** The failure of a group that met a conflict in every attempt. */
  function UsedUp(): Failure { Failure(Conflict, true, OfRetries) }

  predicate ByRetries(r: WriteResult) { r.failure.Some? && r.failure.value.cause == OfRetries }

  /** Some operation is told that its retries are used up. */
  ghost predicate Told(ops: seq<Operation>, results: seq<WriteResult>) {
    exists i :: 0 <= i < |ops| && ops[i].index < |results| && ByRetries(results[ops[i].index])
  }

  ghost predicate AllReport(ops: seq<Operation>, results: seq<WriteResult>, failure: Failure) {
    forall i :: 0 <= i < |ops| ==> ops[i].index < |results| && results[ops[i].index].failure == Some(failure)
  }

  /** No write for the group reached storage. If its attempts are used up, all its
      operations say so, and otherwise none does. */
  ghost predicate NeverWritten(limit: nat, k: nat, ops: seq<Operation>, results: seq<WriteResult>, log: seq<Event>)
    requires forall i :: 0 <= i < |ops| ==> ops[i].index < |results|
  {
    && NothingWritten(log, k) && AllFailed(ops, results)
    && (if InTime(limit, ops, log, k) then !Told(ops, results) else AllReport(ops, results, UsedUp()))
  }

  /** A direct put, or a group that has attempts left. */
  ghost predicate InTime(limit: nat, ops: seq<Operation>, log: seq<Event>, k: nat) {
    DirectPut(ops) || |Tries(log, k)| < limit
  }

  /** The attempts on a record are numbered and within the limit. */
  ghost predicate Orderly(limit: nat, ops: seq<Operation>, log: seq<Event>, k: nat) {
    Tried(log, k) && (|Tries(log, k)| <= limit || (DirectPut(ops) && |Tries(log, k)| <= 1))
  }

  /** A completed group: its report is explained by at most one write. */
  ghost predicate Final(luas: Luas, limit: nat, k: nat, ops: seq<Operation>, results: seq<WriteResult>, log: seq<Event>)
    requires forall i :: 0 <= i < |ops| ==> ops[i].index < |results|
  {
    || (exists j: nat :: Committed(luas, k, ops, results, log, j))
    || (exists j: nat :: FailedInStorage(k, ops, results, log, j))
    || NeverWritten(limit, k, ops, results, log)
  }

  /** A group that may still be retried: nothing was written for it and its
      results carry no revision and no document. */
  ghost predicate Open(k: nat, ops: seq<Operation>, results: seq<WriteResult>, log: seq<Event>)
    requires forall i :: 0 <= i < |ops| ==> ops[i].index < |results|
  {
    && NothingWritten(log, k)
    && (forall i :: 0 <= i < |ops| ==>
          var r := results[ops[i].index];
          r.revision == None && r.document == None && r.status != Applied)
  }

  /** The state of an execution: a completed group was completed once and has a
      final report; every other group may still be tried. */
  datatype World = World(
    initial: seq<WriteResult>, results: seq<WriteResult>, log: seq<Event>, completed: seq<nat>)

  ghost predicate GroupState(luas: Luas, limit: nat, k: nat, g: Group, w: World)
    requires forall i :: 0 <= i < |g.ops| ==> g.ops[i].index < |w.results|
  {
    && Orderly(limit, g.ops, w.log, g.key)
    && (if k in w.completed then Final(luas, limit, g.key, g.ops, w.results, w.log)
        else Open(g.key, g.ops, w.results, w.log))
  }

  ghost predicate InSome(groups: Groups, j: nat) {
    exists k :: 0 <= k < |groups| && Touches(groups[k].ops, j)
  }

  /** Results of operations that are in no group are as they were. */
  ghost predicate Framed(groups: Groups, initial: seq<WriteResult>, results: seq<WriteResult>) {
    |initial| == |results| && forall j :: 0 <= j < |initial| && !InSome(groups, j) ==> results[j] == initial[j]
  }

  ghost predicate Once(m: multiset<nat>) {
    forall k :: m[k] <= 1
  }

  ghost predicate Consistent(luas: Luas, limit: nat, groups: Groups, w: World) {
    && Disjoint(groups, |w.results|)
    && (forall k :: 0 <= k < |groups| ==> GroupState(luas, limit, k, groups[k], w))
    && Once(multiset(w.completed))
    && Framed(groups, w.initial, w.results)
  }

  // ---------------------------------------------------------------------
  // Frames
  // ---------------------------------------------------------------------

  ghost predicate SameFor(ops: seq<Operation>, r: seq<WriteResult>, t: seq<WriteResult>) {
    |r| == |t| && forall i :: 0 <= i < |ops| && ops[i].index < |r| ==> r[ops[i].index] == t[ops[i].index]
  }

  lemma OutsideIsSame(groups: Groups, m: nat, k: nat, r: seq<WriteResult>, t: seq<WriteResult>)
    requires Disjoint(groups, |r|) && m < |groups| && k < |groups| && m != k && SameOutside(groups[m].ops, r, t)
    ensures SameFor(groups[k].ops, r, t)
  {
    assert Apart(groups[m].ops, groups[k].ops);
    forall i | 0 <= i < |groups[k].ops| ensures r[groups[k].ops[i].index] == t[groups[k].ops[i].index] {
      assert !Touches(groups[m].ops, groups[k].ops[i].index);
    }
  }

  lemma FinalFrame(luas: Luas, limit: nat, k: nat, ops: seq<Operation>, r: seq<WriteResult>, t: seq<WriteResult>,
                   log: seq<Event>, more: seq<Event>)
    requires forall i :: 0 <= i < |ops| ==> ops[i].index < |r|
    requires SameFor(ops, r, t) && Quiet(log, more, k) && Final(luas, limit, k, ops, r, log)
    ensures Final(luas, limit, k, ops, t, more)
  {
    hide Replay, Sequential, Tries;
    assert Kept(ops, r) == Kept(ops, t);
    assert forall j :: 0 <= j < |log| ==> more[j] == more[..|log|][j] == log[j];
    if j: nat :| Committed(luas, k, ops, r, log, j) {
      SequentialFrame(luas(log[j].attempt), ops, r, t, DocumentOf(log[j].before));
      assert Committed(luas, k, ops, t, more, j);
    } else if j: nat :| FailedInStorage(k, ops, r, log, j) {
      assert FailedInStorage(k, ops, t, more, j);
    } else {
      TriesQuiet(log, more, k);
    }
  }

  lemma SequentialFrame(lua: Lua, ops: seq<Operation>, r: seq<WriteResult>, t: seq<WriteResult>,
                        base: Option<Document>)
    requires forall i :: 0 <= i < |ops| ==> ops[i].index < |r|
    requires SameFor(ops, r, t) && Sequential(lua, ops, r, base)
    ensures Sequential(lua, ops, t, base)
  {
    hide Replay, Execute;
    assert Kept(ops, r) == Kept(ops, t);
    forall i | 0 <= i < |ops| ensures Meets(lua, ops, t, base, i) {
      assert Meets(lua, ops, r, base, i);
    }
  }

  lemma OpenFrame(k: nat, ops: seq<Operation>, r: seq<WriteResult>, t: seq<WriteResult>, log: seq<Event>,
                  more: seq<Event>)
    requires forall i :: 0 <= i < |ops| ==> ops[i].index < |r|
    requires SameFor(ops, r, t) && Quiet(log, more, k) && Open(k, ops, r, log)
    ensures Open(k, ops, t, more)
  {
    assert forall j :: 0 <= j < |log| ==> more[j] == more[..|log|][j] == log[j];
  }

  // ---------------------------------------------------------------------
  // One group moves, all others stay
  // ---------------------------------------------------------------------

  ghost predicate OnlyTouched(groups: Groups, m: nat, w: World, v: World)
    requires m < |groups|
  {
    && v.initial == w.initial && SameOutside(groups[m].ops, w.results, v.results)
    && |w.log| <= |v.log| && v.log[..|w.log|] == w.log
    && (forall j :: |w.log| <= j < |v.log| ==> v.log[j].key == groups[m].key)
  }

  lemma FramedStays(groups: Groups, m: nat, w: World, v: World)
    requires m < |groups| && Framed(groups, w.initial, w.results) && OnlyTouched(groups, m, w, v)
    ensures Framed(groups, v.initial, v.results)
  {
    forall j | 0 <= j < |v.initial| && !InSome(groups, j) ensures v.results[j] == v.initial[j] {
      assert !Touches(groups[m].ops, j);
    }
  }

  lemma OthersStay(luas: Luas, limit: nat, groups: Groups, w: World, v: World, m: nat, k: nat)
    requires Consistent(luas, limit, groups, w) && m < |groups| && k < |groups| && k != m
        && OnlyTouched(groups, m, w, v)
    requires k in v.completed <==> k in w.completed
    ensures GroupState(luas, limit, k, groups[k], v)
  {
    hide Final, Open, Tries;
    assert GroupState(luas, limit, k, groups[k], w);
    OutsideIsSame(groups, m, k, w.results, v.results);
    TriesQuiet(w.log, v.log, groups[k].key);
    if k in w.completed {
      FinalFrame(luas, limit, groups[k].key, groups[k].ops, w.results, v.results, w.log, v.log);
    } else {
      OpenFrame(groups[k].key, groups[k].ops, w.results, v.results, w.log, v.log);
    }
  }

  /** A group is evaluated again, or its commit meets a conflict. */
  lemma StaysOpen(luas: Luas, limit: nat, groups: Groups, w: World, v: World, m: nat)
    requires Consistent(luas, limit, groups, w) && m < |groups| && m !in w.completed && OnlyTouched(groups, m, w, v)
    requires v.completed == w.completed && Open(groups[m].key, groups[m].ops, v.results, v.log)
    requires Orderly(limit, groups[m].ops, v.log, groups[m].key)
    ensures Consistent(luas, limit, groups, v)
  {
    hide Final, Open, Orderly;
    FramedStays(groups, m, w, v);
    forall k | 0 <= k < |groups| ensures GroupState(luas, limit, k, groups[k], v) {
      if k != m {
        OthersStay(luas, limit, groups, w, v, m, k);
      }
    }
  }

  /** A group is completed. */
  lemma Closes(luas: Luas, limit: nat, groups: Groups, w: World, v: World, m: nat)
    requires Consistent(luas, limit, groups, w) && m < |groups| && m !in w.completed && OnlyTouched(groups, m, w, v)
    requires v.completed == w.completed + [m] && Final(luas, limit, groups[m].key, groups[m].ops, v.results, v.log)
    requires Orderly(limit, groups[m].ops, v.log, groups[m].key)
    ensures Consistent(luas, limit, groups, v)
  {
    hide Final, Open, Orderly;
    FramedStays(groups, m, w, v);
    forall k | 0 <= k < |groups| ensures GroupState(luas, limit, k, groups[k], v) {
      if k != m {
        OthersStay(luas, limit, groups, w, v, m, k);
      }
    }
    assert multiset(v.completed) == multiset(w.completed) + multiset{m};
  }

  // ---------------------------------------------------------------------
  // From an evaluated group to its report
  // ---------------------------------------------------------------------

  predicate HonestStatus(v: Verdict) { v.Refused? ==> v.status != Applied && v.failure.cause != OfRetries }

  lemma {:induction false} FoldHonest(lua: Lua, ops: seq<Operation>, stored: ReadResult)
    ensures forall i :: 0 <= i < |ops| ==> HonestStatus(Fold(lua, ops, stored).verdicts[i])
  {
    if ops != [] {
      FoldHonest(lua, ops[..|ops| - 1], stored);
    }
  }

  /** The results of `ops` show the verdicts of a fold of a genuine snapshot. */
  ghost predicate Evaluated(lua: Lua, history: History, k: nat, ops: seq<Operation>, results: seq<WriteResult>,
                            stored: ReadResult, p: Progress)
    requires forall i :: 0 <= i < |ops| ==> ops[i].index < |results|
  {
    && |p.verdicts| == |ops|
    && GenuineRead(history, k, stored)
    && Delivers(lua, ops, stored, p)
    && (stored.Readable() ==> AllFair(lua, ops, p.verdicts, Contents(stored)))
    && (forall i :: 0 <= i < |ops| ==> HonestStatus(p.verdicts[i]) && results[ops[i].index] == Shown(p.verdicts[i]))
  }

  /** A candidate waiting for its commit. */
  ghost predicate Ready(lua: Lua, history: History, k: nat, ops: seq<Operation>, results: seq<WriteResult>,
                        commit: Commit)
    requires forall i :: 0 <= i < |ops| ==> ops[i].index < |results|
  {
    exists stored, p :: Evaluated(lua, history, k, ops, results, stored, p) && p.included && p.commit == commit
  }

  lemma ReadyFrame(lua: Lua, history: History, k: nat, ops: seq<Operation>, r: seq<WriteResult>, t: seq<WriteResult>,
                   commit: Commit)
    requires forall i :: 0 <= i < |ops| ==> ops[i].index < |r|
    requires SameFor(ops, r, t) && Ready(lua, history, k, ops, r, commit)
    ensures Ready(lua, history, k, ops, t, commit)
  {
    var stored, p :| Evaluated(lua, history, k, ops, r, stored, p) && p.included && p.commit == commit;
    assert Evaluated(lua, history, k, ops, t, stored, p);
  }

  /** `attachWriteDocument`. */
  function Attach(results: seq<WriteResult>, ops: seq<Operation>, document: Document): (r: seq<WriteResult>)
    requires forall i :: 0 <= i < |ops| ==> ops[i].index < |results|
    ensures |r| == |results|
  {
    if ops == [] then results
    else
      var n := |ops| - 1;
      var r := Attach(results, ops[..n], document);
      if ops[n].returnDocument && r[ops[n].index].status == Applied
      then r[ops[n].index := r[ops[n].index].(document := Some(document))] else r
  }

  lemma {:induction false} AttachAt(results: seq<WriteResult>, ops: seq<Operation>, document: Document)
    requires DistinctIndexes(ops, |results|)
    ensures SameOutside(ops, results, Attach(results, ops, document))
    ensures forall i :: 0 <= i < |ops| ==>
              Attach(results, ops, document)[ops[i].index]
              == if ops[i].returnDocument && results[ops[i].index].status == Applied
                 then results[ops[i].index].(document := Some(document)) else results[ops[i].index]
  {
    if ops != [] {
      var n := |ops| - 1;
      AttachAt(results, ops[..n], document);
      assert forall i :: 0 <= i < n ==> ops[..n][i] == ops[i];
      var r := Attach(results, ops[..n], document);
      assert !Touches(ops[..n], ops[n].index);
      forall k | 0 <= k < |results| && !Touches(ops, k) ensures r[k] == results[k] && ops[n].index != k {
        assert !Touches(ops[..n], k) by {
          assert forall i :: 0 <= i < n ==> ops[..n][i] == ops[i];
        }
      }
    }
  }

  /** The report after the storage outcome of a commit. */
  function Report(results: seq<WriteResult>, ops: seq<Operation>, outcome: Stored,
                  document: Document): (r: seq<WriteResult>)
    requires forall i :: 0 <= i < |ops| ==> ops[i].index < |results|
    ensures |r| == |results|
  {
    Attach(Finish(results, ops, outcome), ops, document)
  }

  lemma ReportAt(results: seq<WriteResult>, ops: seq<Operation>, outcome: Stored, document: Document)
    requires DistinctIndexes(ops, |results|)
    ensures SameOutside(ops, results, Report(results, ops, outcome, document))
    ensures forall i :: 0 <= i < |ops| ==>
              var f := Finished(results[ops[i].index], outcome);
              Report(results, ops, outcome, document)[ops[i].index]
              == if ops[i].returnDocument && f.status == Applied then f.(document := Some(document)) else f
  {
    hide Finish, Attach;
    FinishAt(results, ops, outcome);
    AttachAt(Finish(results, ops, outcome), ops, document);
  }

  /** An applied commit explains the group's report. */
  lemma AppliedIsFinal(luas: Luas, limit: nat, history: History, k: nat, ops: seq<Operation>,
                       results: seq<WriteResult>, log: seq<Event>, e: Event)
    requires DistinctIndexes(ops, |results|) && Open(k, ops, results, log)
    requires Ready(luas(e.attempt), history, k, ops, results, e.commit)
    requires e.key == k && e.outcome.StoredApplied? && Genuine(history, k, e.before)
        && Satisfies(e.before, e.commit.precondition)
    ensures Final(luas, limit, k, ops, Report(results, ops, e.outcome, e.commit.document), log + [e])
  {
    var lua := luas(e.attempt);
    var stored, p :| Evaluated(lua, history, k, ops, results, stored, p) && p.included && p.commit == e.commit;
    Unchanged(history, k, stored, e.before);
    var t := Report(results, ops, e.outcome, e.commit.document);
    assert Replay(lua, ops, Flags(p.verdicts), DocumentOf(e.before))
        == Some(Some(e.commit.document)) by { hide Report; }
    AppliedReport(lua, history, k, ops, results, stored, p, e);
    AppliedSequential(lua, history, k, ops, results, stored, p, e);
    hide Report, Replay, Kept, Flags, Acknowledged, Evaluated, Sequential, SomeKept;
    assert (log + [e])[|log|] == e;
    assert Committed(luas, k, ops, t, log + [e], |log|);
  }

  /** The report of an applied commit acknowledges exactly what the fold kept. */
  lemma AppliedReport(lua: Lua, history: History, k: nat, ops: seq<Operation>, results: seq<WriteResult>,
                      stored: ReadResult, p: Progress, e: Event)
    requires DistinctIndexes(ops, |results|) && Evaluated(lua, history, k, ops, results, stored, p)
        && e.outcome.StoredApplied?
    ensures var t := Report(results, ops, e.outcome, e.commit.document);
            Kept(ops, t) == Flags(p.verdicts) && Acknowledged(ops, t, e)
  {
    hide Report, Delivers;
    ReportAt(results, ops, e.outcome, e.commit.document);
    var t := Report(results, ops, e.outcome, e.commit.document);
    forall i | 0 <= i < |ops| ensures Kept(ops, t)[i] == Flags(p.verdicts)[i] {
    }
  }

  /** The report of an applied commit is the sequential run, refusals included. */
  lemma AppliedSequential(lua: Lua, history: History, k: nat, ops: seq<Operation>, results: seq<WriteResult>,
                          stored: ReadResult, p: Progress, e: Event)
    requires DistinctIndexes(ops, |results|) && Evaluated(lua, history, k, ops, results, stored, p)
    requires p.included && e.outcome.StoredApplied?
    ensures stored.Readable()
    ensures var t := Report(results, ops, e.outcome, e.commit.document);
            Sequential(lua, ops, t, Contents(stored)) && SomeKept(ops, t)
  {
    hide Report, Replay, Execute;
    AppliedReport(lua, history, k, ops, results, stored, p, e);
    ReportAt(results, ops, e.outcome, e.commit.document);
    var t := Report(results, ops, e.outcome, e.commit.document);
    var w :| 0 <= w < |ops| && p.verdicts[w].Wrote?;
    assert Kept(ops, t)[w];
    forall i | 0 <= i < |ops| ensures Meets(lua, ops, t, Contents(stored), i) {
      assert Fair(lua, ops, p.verdicts, Contents(stored), i);
      assert Kept(ops, t)[i] == Flags(p.verdicts)[i];
    }
  }

  /** A commit that failed in storage explains the group's report. */
  lemma FailureIsFinal(luas: Luas, limit: nat, k: nat, ops: seq<Operation>, results: seq<WriteResult>,
                       log: seq<Event>, e: Event)
    requires DistinctIndexes(ops, |results|) && Open(k, ops, results, log)
    requires e.key == k && e.outcome.StoredFailure? && e.outcome.failure.cause == OfStorage
    ensures Final(luas, limit, k, ops, Report(results, ops, e.outcome, e.commit.document), log + [e])
  {
    hide Finish, Attach;
    ReportAt(results, ops, e.outcome, e.commit.document);
    var t := Report(results, ops, e.outcome, e.commit.document);
    assert (log + [e])[|log|] == e;
    assert FailedInStorage(k, ops, t, log + [e], |log|);
  }

  /** A group may be given up for its retries exactly when they are used up. */
  ghost predicate Fitting(limit: nat, ops: seq<Operation>, log: seq<Event>, k: nat, failure: Failure) {
    if InTime(limit, ops, log, k) then failure.cause != OfRetries else failure == UsedUp()
  }

  /** A group that is given up before any write reached storage. */
  lemma GivenUpIsFinal(luas: Luas, limit: nat, k: nat, ops: seq<Operation>, results: seq<WriteResult>, log: seq<Event>,
                       failure: Failure)
    requires DistinctIndexes(ops, |results|) && Open(k, ops, results, log) && Fitting(limit, ops, log, k, failure)
    ensures Final(luas, limit, k, ops, Finish(results, ops, StoredFailure(failure)), log)
  {
    hide Finish, Tries;
    FinishAt(results, ops, StoredFailure(failure));
  }

  /** A group all of whose operations were refused needs no write. */
  lemma RefusedIsFinal(luas: Luas, limit: nat, history: History, lua: Lua, k: nat, ops: seq<Operation>,
                       results: seq<WriteResult>,
                       log: seq<Event>, stored: ReadResult, p: Progress)
    requires DistinctIndexes(ops, |results|) && NothingWritten(log, k) && InTime(limit, ops, log, k)
    requires Evaluated(lua, history, k, ops, results, stored, p) && !p.included
    ensures Final(luas, limit, k, ops, results, log)
  {
    hide AllFair, Tries;
    assert AllFailed(ops, results) && !Told(ops, results);
  }

  // ---------------------------------------------------------------------
  // Retries
  // ---------------------------------------------------------------------

  /** A group is told that its retries are used up exactly when every attempt met
      a conflict; then all its operations are, and nothing was written for it. A
      direct put is never told so. */
  ghost predicate RetriesRight(limit: nat, k: nat, ops: seq<Operation>, results: seq<WriteResult>, log: seq<Event>) {
    && (Told(ops, results) <==> !DirectPut(ops) && ConflictAlways(log, k, limit))
    && (Told(ops, results) ==> AllReport(ops, results, UsedUp()) && NothingWritten(log, k))
  }

  /** A write that was not refused is not one of a row of conflicts. */
  lemma WrittenOnce(limit: nat, ops: seq<Operation>, log: seq<Event>, k: nat, j: nat)
    requires Orderly(limit, ops, log, k) && OnlyWrite(log, k, j) && !log[j].outcome.StoredConflict?
    ensures DirectPut(ops) || !ConflictAlways(log, k, limit)
  {
    Successful(log, k, j);
    if !DirectPut(ops) {
      assert !ConflictOnce(log, k, log[j].attempt) && log[j].attempt < limit;
    }
  }

  /** An operation of an applied commit is not refused for its retries. */
  lemma CommittedUntold(luas: Luas, k: nat, ops: seq<Operation>, results: seq<WriteResult>, log: seq<Event>, j: nat)
    requires forall i :: 0 <= i < |ops| ==> ops[i].index < |results|
    requires Committed(luas, k, ops, results, log, j)
    ensures !Told(ops, results)
  {
    hide Replay;
    forall i | 0 <= i < |ops| ensures !ByRetries(results[ops[i].index]) {
      assert Meets(luas(log[j].attempt), ops, results, DocumentOf(log[j].before), i);
    }
  }

  /** What a completed group is told about its retries is right. */
  lemma RetriesTold(luas: Luas, limit: nat, k: nat, ops: seq<Operation>, results: seq<WriteResult>, log: seq<Event>)
    requires forall i :: 0 <= i < |ops| ==> ops[i].index < |results|
    requires Final(luas, limit, k, ops, results, log) && Orderly(limit, ops, log, k)
    ensures RetriesRight(limit, k, ops, results, log)
  {
    hide Tries, Tried, OneTry;
    if j: nat :| Committed(luas, k, ops, results, log, j) {
      hide Sequential, Replay, Acknowledged;
      CommittedUntold(luas, k, ops, results, log, j);
      WrittenOnce(limit, ops, log, k, j);
    } else if j: nat :| FailedInStorage(k, ops, results, log, j) {
      WrittenOnce(limit, ops, log, k, j);
    } else {
      NeverWrittenTold(limit, k, ops, results, log);
    }
  }

  lemma NeverWrittenTold(limit: nat, k: nat, ops: seq<Operation>, results: seq<WriteResult>, log: seq<Event>)
    requires forall i :: 0 <= i < |ops| ==> ops[i].index < |results|
    requires NeverWritten(limit, k, ops, results, log) && Orderly(limit, ops, log, k)
    ensures RetriesRight(limit, k, ops, results, log)
  {
    if |Tries(log, k)| < limit {
      NoConflict(log, k, |Tries(log, k)|);
    } else if !DirectPut(ops) {
      assert ops != [] && ByRetries(results[ops[0].index]);
      forall a | 0 <= a < limit ensures ConflictOnce(log, k, a) {
        AllConflicts(log, k, a);
      }
    }
  }

  // ---------------------------------------------------------------------
  // The transitions of an execution
  // ---------------------------------------------------------------------

  lemma IsOpen(luas: Luas, limit: nat, groups: Groups, w: World, k: nat)
    requires Consistent(luas, limit, groups, w) && k < |groups| && k !in w.completed
    ensures DistinctIndexes(groups[k].ops, |w.results|) && Open(groups[k].key, groups[k].ops, w.results, w.log)
    ensures Orderly(limit, groups[k].ops, w.log, groups[k].key)
  {
    assert GroupState(luas, limit, k, groups[k], w);
  }

  lemma EvaluatedStep(luas: Luas, limit: nat, groups: Groups, w: World, k: nat, lua: Lua, history: History,
                      results: seq<WriteResult>, stored: ReadResult, p: Progress)
    requires Consistent(luas, limit, groups, w) && k < |groups| && k !in w.completed
    requires SameOutside(groups[k].ops, w.results, results)
    requires Evaluated(lua, history, groups[k].key, groups[k].ops, results, stored, p)
    ensures Consistent(luas, limit, groups, w.(results := results))
  {
    IsOpen(luas, limit, groups, w, k);
    StaysOpen(luas, limit, groups, w, w.(results := results), k);
  }

  lemma RefusedStep(luas: Luas, limit: nat, groups: Groups, w: World, k: nat, lua: Lua, history: History,
                    stored: ReadResult,
                    p: Progress)
    requires Consistent(luas, limit, groups, w) && k < |groups| && k !in w.completed
    requires Evaluated(lua, history, groups[k].key, groups[k].ops, w.results, stored, p) && !p.included
    requires InTime(limit, groups[k].ops, w.log, groups[k].key)
    ensures Consistent(luas, limit, groups, w.(completed := w.completed + [k]))
  {
    IsOpen(luas, limit, groups, w, k);
    RefusedIsFinal(luas, limit, history, lua, groups[k].key, groups[k].ops, w.results, w.log, stored, p);
    Closes(luas, limit, groups, w, w.(completed := w.completed + [k]), k);
  }

  lemma GiveUpStep(luas: Luas, limit: nat, groups: Groups, w: World, k: nat, failure: Failure)
    requires Consistent(luas, limit, groups, w) && k < |groups| && k !in w.completed
    requires Fitting(limit, groups[k].ops, w.log, groups[k].key, failure)
    ensures DistinctIndexes(groups[k].ops, |w.results|)
    ensures var v := World(w.initial, Finish(w.results, groups[k].ops, StoredFailure(failure)), w.log,
                           w.completed + [k]);
            Consistent(luas, limit, groups, v) && SameOutside(groups[k].ops, w.results, v.results)
  {
    hide Finish;
    IsOpen(luas, limit, groups, w, k);
    FinishAt(w.results, groups[k].ops, StoredFailure(failure));
    GivenUpIsFinal(luas, limit, groups[k].key, groups[k].ops, w.results, w.log, failure);
    Closes(luas, limit, groups, w, World(w.initial, Finish(w.results, groups[k].ops, StoredFailure(failure)), w.log,
                                  w.completed + [k]), k);
  }

  lemma ConflictStep(luas: Luas, limit: nat, groups: Groups, w: World, k: nat, e: Event)
    requires Consistent(luas, limit, groups, w) && k < |groups| && k !in w.completed
    requires e.key == groups[k].key && e.outcome.StoredConflict?
    requires |Tries(w.log, groups[k].key)| == e.attempt < limit
    ensures Consistent(luas, limit, groups, w.(log := w.log + [e]))
  {
    IsOpen(luas, limit, groups, w, k);
    OrderlyNext(limit, groups[k].ops, w.log, e);
    hide Consistent, Orderly, Tries;
    StaysOpen(luas, limit, groups, w, w.(log := w.log + [e]), k);
  }

  /** The next attempt writes. */
  lemma OrderlyNext(limit: nat, ops: seq<Operation>, log: seq<Event>, e: Event)
    requires Orderly(limit, ops, log, e.key) && |Tries(log, e.key)| == e.attempt
    requires e.attempt < limit || (DirectPut(ops) && e.attempt == 0)
    ensures Orderly(limit, ops, log + [e], e.key)
  {
    TriesNext(log, e, e.key);
  }

  lemma CommitStep(luas: Luas, limit: nat, history: History, groups: Groups, w: World, k: nat, e: Event)
    requires Consistent(luas, limit, groups, w) && k < |groups| && k !in w.completed
    requires DistinctIndexes(groups[k].ops, |w.results|)
        && Ready(luas(e.attempt), history, groups[k].key, groups[k].ops, w.results, e.commit)
    requires e.key == groups[k].key && !e.outcome.StoredConflict? && Genuine(history, groups[k].key, e.before)
    requires e.outcome.StoredApplied? ==> Satisfies(e.before, e.commit.precondition)
    requires e.outcome.StoredFailure? ==> e.outcome.failure.cause == OfStorage
    requires |Tries(w.log, groups[k].key)| == e.attempt < limit
    ensures var v := World(w.initial, Report(w.results, groups[k].ops, e.outcome, e.commit.document), w.log + [e],
                           w.completed + [k]);
            Consistent(luas, limit, groups, v) && SameOutside(groups[k].ops, w.results, v.results)
  {
    hide Consistent, Final, Open, Orderly, Tries, Report, Ready;
    IsOpen(luas, limit, groups, w, k);
    ReportAt(w.results, groups[k].ops, e.outcome, e.commit.document);
    if e.outcome.StoredApplied? {
      AppliedIsFinal(luas, limit, history, groups[k].key, groups[k].ops, w.results, w.log, e);
    } else {
      FailureIsFinal(luas, limit, groups[k].key, groups[k].ops, w.results, w.log, e);
    }
    OrderlyNext(limit, groups[k].ops, w.log, e);
    Closes(luas, limit, groups, w,
           World(w.initial, Report(w.results, groups[k].ops, e.outcome, e.commit.document), w.log + [e],
                 w.completed + [k]), k);
  }

  /** A candidate stays ready while other groups move. */
  lemma StaysReady(groups: Groups, lua: Lua, history: History, r: seq<WriteResult>, t: seq<WriteResult>, m: nat,
                   k: nat, commit: Commit)
    requires Disjoint(groups, |r|) && m < |groups| && k < |groups| && m != k
    requires SameOutside(groups[m].ops, r, t) && Ready(lua, history, groups[k].key, groups[k].ops, r, commit)
    ensures Ready(lua, history, groups[k].key, groups[k].ops, t, commit)
  {
    OutsideIsSame(groups, m, k, r, t);
    ReadyFrame(lua, history, groups[k].key, groups[k].ops, r, t, commit);
  }

  lemma {:induction false} PartsHonest(lua: Lua, ops: seq<Operation>, owners: seq<nat>, start: nat, b: Batch)
    requires start <= |ops| && |b.inputs| == |b.outputs| && Owned(ops, owners, |b.inputs|)
    requires forall i :: 0 <= i < |b.fold.verdicts| ==> HonestStatus(b.fold.verdicts[i])
    ensures forall i :: 0 <= i < |b.fold.verdicts| + |ops| - start ==>
              HonestStatus(FoldParts(lua, ops, owners, start, b).fold.verdicts[i])
    decreases |ops| - start
  {
    if start < |ops| {
      var end := PartEnd(ops, owners, start, start + 1);
      FoldHonest(lua, ops[start..end], b.fold.current);
      PartsHonest(lua, ops, owners, end, FoldPart(lua, ops[start..end], owners[ops[start].index], b));
    }
  }

  lemma EvaluatedFold(lua: Lua, history: History, k: nat, ops: seq<Operation>, results: seq<WriteResult>,
                      stored: ReadResult)
    requires DistinctIndexes(ops, |results|) && GenuineRead(history, k, stored)
    ensures var p := Fold(lua, ops, stored);
            var r := Reported(results, ops, p.verdicts);
            Evaluated(lua, history, k, ops, r, stored, p) && SameOutside(ops, results, r)
  {
    hide Fold, Reported, Delivers, AllFair, HonestStatus, SameOutside;
    FoldHonest(lua, ops, stored);
    FoldDelivers(lua, ops, stored);
    if stored.Readable() {
      FoldFair(lua, ops, stored);
    }
    ReportedAt(results, ops, Fold(lua, ops, stored).verdicts);
  }

  lemma NothingFair(lua: Lua, ops: seq<Operation>, stored: ReadResult, inputs: seq<Budget>, outputs: seq<Budget>)
    requires stored.Readable()
    ensures var p := NewBatch(stored, inputs, outputs).fold;
            Delivers(lua, ops[..0], stored, p) && AllFair(lua, ops[..0], p.verdicts, Contents(stored))
  {
  }

  lemma EvaluatedParts(lua: Lua, history: History, k: nat, ops: seq<Operation>, owners: seq<nat>,
                       results: seq<WriteResult>,
                       stored: ReadResult, inputs: seq<Budget>, outputs: seq<Budget>)
    requires DistinctIndexes(ops, |results|) && GenuineRead(history, k, stored)
    requires |inputs| == |outputs| && Owned(ops, owners, |inputs|)
    ensures var p := FoldParts(lua, ops, owners, 0, NewBatch(stored, inputs, outputs)).fold;
            var r := Reported(results, ops, p.verdicts);
            Evaluated(lua, history, k, ops, r, stored, p) && SameOutside(ops, results, r)
  {
    hide FoldParts, Reported, Delivers, AllFair, HonestStatus, SameOutside;
    var b := NewBatch(stored, inputs, outputs);
    PartsHonest(lua, ops, owners, 0, b);
    BatchedFoldIsSequential(lua, ops, owners, stored, inputs, outputs);
    if stored.Readable() {
      NothingFair(lua, ops, stored, inputs, outputs);
      PartsFair(lua, ops, owners, 0, stored, b);
    }
    ReportedAt(results, ops, FoldParts(lua, ops, owners, 0, b).fold.verdicts);
  }

  // ---------------------------------------------------------------------
  // Puts that need no snapshot
  // ---------------------------------------------------------------------

  /** `directPut`: a single put, or puts without conditions. */
  predicate DirectPut(ops: seq<Operation>) {
    if |ops| == 1 then ops[0].action.Put?
    else forall i :: 0 <= i < |ops| ==> ops[i].action.Put? && ops[i].action.condition == Always
  }

  function Direct(ops: seq<Operation>): Commit
    requires ops != [] && DirectPut(ops)
  {
    var last := ops[|ops| - 1].action;
    Commit(last.document, last.condition)
  }

  ghost predicate Clean(ops: seq<Operation>, results: seq<WriteResult>) {
    forall i :: 0 <= i < |ops| ==> ops[i].index < |results| && results[ops[i].index].failure == None
  }

  lemma {:induction false} ChainReplay(lua: Lua, ops: seq<Operation>, kept: seq<bool>, current: Option<Document>)
    requires |kept| == |ops| && (forall i :: 0 <= i < |kept| ==> kept[i])
    requires forall i :: 0 <= i < |ops| ==> ops[i].action.Put? && ops[i].action.condition == Always
    ensures Replay(lua, ops, kept, current) == Some(if ops == [] then current else Some(ops[|ops| - 1].action.document))
  {
    if ops != [] {
      ChainReplay(lua, ops[..|ops| - 1], kept[..|ops| - 1], current);
    }
  }

  /** Writing only the last document of such a group is the sequential run of
      all its operations, whatever the record holds. */
  lemma DirectReplay(lua: Lua, ops: seq<Operation>, kept: seq<bool>, record: Option<Record>)
    requires ops != [] && DirectPut(ops) && |kept| == |ops| && (forall i :: 0 <= i < |kept| ==> kept[i])
    requires Satisfies(record, Direct(ops).precondition)
    ensures Replay(lua, ops, kept, DocumentOf(record)) == Some(Some(Direct(ops).document))
  {
    if |ops| == 1 {
      assert Replay(lua, ops[..0], kept[..0], DocumentOf(record)) == Some(DocumentOf(record));
    } else {
      ChainReplay(lua, ops, kept, DocumentOf(record));
    }
  }

  lemma DirectSequential(lua: Lua, ops: seq<Operation>, results: seq<WriteResult>, record: Option<Record>)
    requires ops != [] && DirectPut(ops) && Clean(ops, results) && Satisfies(record, Direct(ops).precondition)
    ensures Sequential(lua, ops, results, DocumentOf(record))
  {
    forall i | 0 <= i < |ops| ensures Meets(lua, ops, results, DocumentOf(record), i) {
      if |ops| > 1 {
        ChainReplay(lua, ops[..i], Kept(ops, results)[..i], DocumentOf(record));
      }
    }
  }

  lemma DirectIsFinal(luas: Luas, limit: nat, k: nat, ops: seq<Operation>, results: seq<WriteResult>, log: seq<Event>,
                      e: Event)
    requires DistinctIndexes(ops, |results|) && Open(k, ops, results, log) && Clean(ops, results)
    requires ops != [] && DirectPut(ops) && e.commit == Direct(ops) && e.key == k
    requires e.outcome.StoredApplied? ==> Satisfies(e.before, e.commit.precondition)
    requires e.outcome.StoredFailure? ==> e.outcome.failure.cause == OfStorage
    ensures Final(luas, limit, k, ops, Report(results, ops, e.outcome, e.commit.document), log + [e])
  {
    if e.outcome.StoredFailure? {
      FailureIsFinal(luas, limit, k, ops, results, log, e);
    } else if e.outcome.StoredApplied? {
      DirectApplied(luas, k, ops, results, log, e);
    } else {
      hide Report, Tries;
      ReportAt(results, ops, e.outcome, e.commit.document);
    }
  }

  lemma DirectApplied(luas: Luas, k: nat, ops: seq<Operation>, results: seq<WriteResult>, log: seq<Event>, e: Event)
    requires DistinctIndexes(ops, |results|) && Open(k, ops, results, log) && Clean(ops, results)
    requires ops != [] && DirectPut(ops) && e.commit == Direct(ops) && e.key == k
    requires e.outcome.StoredApplied? && Satisfies(e.before, e.commit.precondition)
    ensures Committed(luas, k, ops, Report(results, ops, e.outcome, e.commit.document), log + [e], |log|)
  {
    hide Report, Replay, Sequential, DirectPut;
    ReportAt(results, ops, e.outcome, e.commit.document);
    var t := Report(results, ops, e.outcome, e.commit.document);
    assert (log + [e])[|log|] == e;
    assert Kept(ops, t)[0];
    DirectReplay(luas(e.attempt), ops, Kept(ops, t), e.before);
    DirectSequential(luas(e.attempt), ops, t, e.before);
  }

  lemma DirectStep(luas: Luas, limit: nat, groups: Groups, w: World, k: nat, e: Event)
    requires Consistent(luas, limit, groups, w) && k < |groups| && k !in w.completed && Clean(groups[k].ops, w.results)
    requires groups[k].ops != [] && DirectPut(groups[k].ops) && e.commit == Direct(groups[k].ops)
        && e.key == groups[k].key
    requires e.outcome.StoredApplied? ==> Satisfies(e.before, e.commit.precondition)
    requires e.outcome.StoredFailure? ==> e.outcome.failure.cause == OfStorage
    requires |Tries(w.log, groups[k].key)| == e.attempt == 0
    ensures DistinctIndexes(groups[k].ops, |w.results|)
    ensures var v := World(w.initial, Report(w.results, groups[k].ops, e.outcome, e.commit.document), w.log + [e],
                           w.completed + [k]);
            Consistent(luas, limit, groups, v) && SameOutside(groups[k].ops, w.results, v.results)
  {
    hide Consistent, Final, Open, Orderly, Tries, Report;
    IsOpen(luas, limit, groups, w, k);
    ReportAt(w.results, groups[k].ops, e.outcome, e.commit.document);
    DirectIsFinal(luas, limit, groups[k].key, groups[k].ops, w.results, w.log, e);
    OrderlyNext(limit, groups[k].ops, w.log, e);
    Closes(luas, limit, groups, w,
           World(w.initial, Report(w.results, groups[k].ops, e.outcome, e.commit.document), w.log + [e],
                 w.completed + [k]), k);
  }

  /** A returned document is the operation's own committed result: when the
      operation is alone in its commit, the document is what the operation makes
      of the record as it was at the instant of the commit. */
  lemma ReturnedIsOwn(luas: Luas, k: nat, op: Operation, results: seq<WriteResult>, log: seq<Event>, j: nat)
    requires op.index < |results| && Committed(luas, k, [op], results, log, j) && results[op.index].document.Some?
    ensures Execute(luas(log[j].attempt), op, DocumentOf(log[j].before)) == Wrote(results[op.index].document.value)
    ensures log[j].commit.document == results[op.index].document.value
  {
    var lua, before := luas(log[j].attempt), DocumentOf(log[j].before);
    assert [op][0] == op && results[[op][0].index].status == Applied;
    assert [op][..0] == [] && Kept([op], results)[0];
    assert Replay(lua, [], Kept([op], results)[..0], before) == Some(before);
  }

  ghost predicate AllReset(groups: Groups, results: seq<WriteResult>) {
    forall k :: 0 <= k < |groups| ==> forall i :: 0 <= i < |groups[k].ops| ==>
      groups[k].ops[i].index < |results| && results[groups[k].ops[i].index] == Reset()
  }

  /** An execution starts consistent. */
  lemma StartsConsistent(luas: Luas, limit: nat, groups: Groups, results: seq<WriteResult>)
    requires Disjoint(groups, |results|)
    requires AllReset(groups, results)
    ensures Consistent(luas, limit, groups, World(results, results, [], []))
    ensures forall k :: 0 <= k < |groups| ==> Clean(groups[k].ops, results)
  {
  }

  // ---------------------------------------------------------------------
  // The allowance for returned documents
  // ---------------------------------------------------------------------

  /** Every caller's allowance is conserved, and its ledger holds exactly the
      documents in the results. */
  ghost predicate Funded(results: seq<WriteResult>, a: Allowances) {
    Conserved(a) && |a.owners| == |results| && Ledger(results, a.kept)
  }

  /** The same, but for the operations `ops` nothing is in the ledger yet. */
  ghost predicate Owing(ops: seq<Operation>, results: seq<WriteResult>, a: Allowances) {
    && Conserved(a) && |a.owners| == |a.kept| == |results|
    && (forall j :: 0 <= j < |results| && !Touches(ops, j) ==> a.kept[j] == Retained(results[j]))
    && (forall i :: 0 <= i < |ops| && ops[i].index < |results| ==> a.kept[ops[i].index] == 0)
  }

  /** The results of an open group change. */
  lemma NowOwing(key: nat, ops: seq<Operation>, log: seq<Event>, before: seq<WriteResult>, after: seq<WriteResult>,
                 a: Allowances)
    requires Funded(before, a) && (forall i :: 0 <= i < |ops| ==> ops[i].index < |before|)
    requires Open(key, ops, before, log) && SameOutside(ops, before, after)
    ensures Owing(ops, after, a)
  {
  }

  /** Results that only show verdicts return nothing. */
  lemma EvaluatedFunds(lua: Lua, history: History, key: nat, ops: seq<Operation>, log: seq<Event>,
                       before: seq<WriteResult>,
                       after: seq<WriteResult>, stored: ReadResult, p: Progress, a: Allowances)
    requires Funded(before, a) && (forall i :: 0 <= i < |ops| ==> ops[i].index < |before|)
    requires Open(key, ops, before, log) && SameOutside(ops, before, after)
    requires Evaluated(lua, history, key, ops, after, stored, p)
    ensures Funded(after, a) && Owing(ops, after, a)
    ensures forall i :: 0 <= i < |ops| ==> Retained(after[ops[i].index]) == 0
  {
    NowOwing(key, ops, log, before, after, a);
    forall j | 0 <= j < |after| ensures a.kept[j] == Retained(after[j]) {
      if Touches(ops, j) {
        var i :| 0 <= i < |ops| && ops[i].index == j;
        assert after[ops[i].index] == Shown(p.verdicts[i]);
      }
    }
  }

  /** No group that is not completed has lost room. */
  ghost predicate Steady(groups: Groups, completed: seq<nat>, s: seq<nat>, t: seq<nat>) {
    |s| == |t| && forall k :: 0 <= k < |groups| && k !in completed ==> NotLess(groups[k].ops, s, t)
  }

  ghost predicate NotLess(ops: seq<Operation>, s: seq<nat>, t: seq<nat>) {
    |s| == |t| && forall i :: 0 <= i < |ops| && ops[i].index < |s| ==> s[ops[i].index] <= t[ops[i].index]
  }

  lemma SteadyRefl(groups: Groups, completed: seq<nat>, s: seq<nat>)
    ensures Steady(groups, completed, s, s)
  {
  }

  lemma SteadyTrans(groups: Groups, before: seq<nat>, after: seq<nat>, s: seq<nat>, t: seq<nat>, u: seq<nat>)
    requires Steady(groups, before, s, t) && Steady(groups, after, t, u) && forall k :: k in before ==> k in after
    ensures Steady(groups, after, s, u)
  {
    forall k | 0 <= k < |groups| && k !in after ensures NotLess(groups[k].ops, s, u) {
      assert NotLess(groups[k].ops, s, t) && NotLess(groups[k].ops, t, u);
    }
  }

  lemma CoveredSteady(groups: Groups, completed: seq<nat>, k: nat, document: Document, s: seq<nat>, t: seq<nat>)
    requires Steady(groups, completed, s, t) && k < |groups| && k !in completed && Covered(groups[k].ops, document, s)
    ensures Covered(groups[k].ops, document, t)
  {
    assert NotLess(groups[k].ops, s, t);
  }

  lemma CompletedFunds(groups: Groups, completed: seq<nat>, results: seq<WriteResult>, a: Allowances, b: Allowances,
                       m: nat)
    requires Disjoint(groups, |results|) && m < |groups| && Owing(groups[m].ops, results, a)
    requires Conserved(b) && b.owners == a.owners
    requires SameElsewhere(groups[m].ops, a.kept, b.kept) && SameElsewhere(groups[m].ops, a.sizes, b.sizes)
    requires forall i :: 0 <= i < |groups[m].ops| ==>
               b.kept[groups[m].ops[i].index] == Retained(results[groups[m].ops[i].index])
    ensures Funded(results, b) && Steady(groups, completed + [m], a.sizes, b.sizes)
  {
    forall j | 0 <= j < |results| ensures b.kept[j] == Retained(results[j]) {
      if Touches(groups[m].ops, j) {
        var i :| 0 <= i < |groups[m].ops| && groups[m].ops[i].index == j;
      }
    }
    forall k | 0 <= k < |groups| && k !in completed + [m] ensures NotLess(groups[k].ops, a.sizes, b.sizes) {
      assert Apart(groups[m].ops, groups[k].ops);
      forall i | 0 <= i < |groups[k].ops| ensures !Touches(groups[m].ops, groups[k].ops[i].index) {
      }
    }
  }

  /** A report retains only documents that were reserved for. */
  lemma ReportRetains(k: nat, ops: seq<Operation>, results: seq<WriteResult>, log: seq<Event>, outcome: Stored,
                      document: Document, sizes: seq<nat>)
    requires DistinctIndexes(ops, |results|) && |sizes| == |results|
    requires Open(k, ops, results, log) && Covered(ops, document, sizes)
    ensures forall i :: 0 <= i < |ops| ==>
              Retained(Report(results, ops, outcome, document)[ops[i].index]) <= sizes[ops[i].index]
  {
    hide Finish, Attach;
    ReportAt(results, ops, outcome, document);
  }

  lemma FundedSizes(results: seq<WriteResult>, a: Allowances)
    requires Funded(results, a)
    ensures |a.sizes| == |a.kept| == |a.owners| == |results| && Conserved(a)
  {
  }

  lemma ReadyNow(lua: Lua, history: History, k: nat, ops: seq<Operation>, results: seq<WriteResult>, commit: Commit,
                 stored: ReadResult, p: Progress)
    requires DistinctIndexes(ops, |results|)
    requires Evaluated(lua, history, k, ops, results, stored, p) && p.included && p.commit == commit
    ensures Ready(lua, history, k, ops, results, commit)
  {
  }

  /** Giving a group up, with its failure reported and nothing returned. */
  lemma GivenUp(luas: Luas, limit: nat, groups: Groups, w: World, k: nat, failure: Failure, a: Allowances)
    requires Consistent(luas, limit, groups, w) && k < |groups| && k !in w.completed && Funded(w.results, a)
    requires Fitting(limit, groups[k].ops, w.log, groups[k].key, failure)
    ensures Disjoint(groups, |w.results|) && DistinctIndexes(groups[k].ops, |w.results|) && |a.sizes| == |w.results|
    ensures var v := World(w.initial, Finish(w.results, groups[k].ops, StoredFailure(failure)), w.log,
                           w.completed + [k]);
            && Consistent(luas, limit, groups, v) && SameOutside(groups[k].ops, w.results, v.results)
            && Owing(groups[k].ops, v.results, a) && AllReport(groups[k].ops, v.results, failure)
            && forall i :: 0 <= i < |groups[k].ops| ==> Retained(v.results[groups[k].ops[i].index]) == 0
  {
    IsOpen(luas, limit, groups, w, k);
    FundedSizes(w.results, a);
    GiveUpStep(luas, limit, groups, w, k, failure);
    FinishAt(w.results, groups[k].ops, StoredFailure(failure));
    hide Finish, Consistent, Funded, Owing, Disjoint;
    NowOwing(groups[k].key, groups[k].ops, w.log, w.results, Finish(w.results, groups[k].ops, StoredFailure(failure)),
             a);
    assert Disjoint(groups, |w.results|) by { ConsistentDisjoint(luas, limit, groups, w); }
  }

  lemma ConsistentDisjoint(luas: Luas, limit: nat, groups: Groups, w: World)
    requires Consistent(luas, limit, groups, w)
    ensures Disjoint(groups, |w.results|)
  {
  }
}
