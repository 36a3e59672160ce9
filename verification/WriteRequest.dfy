/** All rounds of one write request (internal/service/write.go,
    executeWriteGroups): what its results say about the writes on the backend. */
module WriteRequests {
  import opened WriteFolding
  import opened ConditionalWrites
  import opened WriteTries
  import opened WriteReturns
  import opened WriteReports
  import opened WriteExecution
  import opened WriteRounds

  /** One round: its groups, the Lua engine at each of its attempts and their
      limit, the part of the log that it wrote and the order in which it completed
      its groups. */
  datatype Round = Round(wave: Groups, luas: Luas, limit: nat, since: nat, until: nat, completed: seq<nat>)

  /** What a sequence of rounds does to record `key`, in order. */
  function Executed(rounds: seq<Round>, key: nat): seq<Operation> {
    if rounds == [] then []
    else Executed(rounds[..|rounds| - 1], key) + OnKey(rounds[|rounds| - 1].wave, key)
  }

  function RoundMarks(rounds: seq<Round>, x: nat): nat {
    if rounds == [] then 0
    else RoundMarks(rounds[..|rounds| - 1], x) + Marks(rounds[|rounds| - 1].wave, x)
  }

  /** A round that is over: every group was completed once, and its report is
      explained by at most one write of this round that was not refused, also
      when it says that retries are used up. */
  ghost predicate Done(r: Round, results: seq<WriteResult>, log: seq<Event>) {
    && r.since <= r.until <= |log|
    && Disjoint(r.wave, |results|) && Alone(r.wave)
    && |r.completed| == |r.wave|
    && (forall k :: 0 <= k < |r.wave| ==> Explained(r, k, results, log[r.since..r.until]))
  }

  ghost predicate Explained(r: Round, k: nat, results: seq<WriteResult>, part: seq<Event>)
    requires k < |r.wave| && DistinctIndexes(r.wave[k].ops, |results|)
  {
    && multiset(r.completed)[k] == 1 && Final(r.luas, r.limit, r.wave[k].key, r.wave[k].ops, results, part)
    && RetriesRight(r.limit, r.wave[k].key, r.wave[k].ops, results, part)
  }

  /** The rounds wrote one after another, from `start` to `end` of the log. */
  ghost predicate Chained(rounds: seq<Round>, start: nat, end: nat) {
    && (rounds == [] ==> end == start)
    && (rounds != [] ==> rounds[0].since == start && rounds[|rounds| - 1].until == end)
    && (forall r :: 0 <= r < |rounds| ==> rounds[r].since <= rounds[r].until)
    && (forall r :: 0 < r < |rounds| ==> rounds[r - 1].until == rounds[r].since)
  }

  lemma ChainedNext(rounds: seq<Round>, start: nat, end: nat, r: Round)
    requires Chained(rounds, start, end) && r.since == end <= r.until
    ensures Chained(rounds + [r], start, r.until)
  {
  }

  /** Earlier rounds wrote earlier. */
  lemma {:induction false} ChainedOrder(rounds: seq<Round>, start: nat, end: nat, a: nat, b: nat)
    requires Chained(rounds, start, end) && a < b < |rounds|
    ensures rounds[a].until <= rounds[b].since
    decreases b
  {
    if a < b - 1 {
      ChainedOrder(rounds, start, end, a, b - 1);
    }
  }

  // ---------------------------------------------------------------------
  // A round leaves the earlier ones alone
  // ---------------------------------------------------------------------

  lemma {:induction false} WaveMarks(rounds: seq<Round>, r: nat, x: nat)
    requires r < |rounds|
    ensures Marks(rounds[r].wave, x) <= RoundMarks(rounds, x)
  {
    if r < |rounds| - 1 {
      WaveMarks(rounds[..|rounds| - 1], r, x);
    }
  }

  /** An operation that wrote its result before is in no group of the wave. */
  lemma NotAgain(earlier: Groups, k: nat, i: nat, wave: Groups)
    requires k < |earlier| && i < |earlier[k].ops|
    requires forall x :: Marks(earlier, x) + Marks(wave, x) <= 1
    ensures !InSome(wave, earlier[k].ops[i].index)
  {
    hide Marks, MarksOf;
    var x := earlier[k].ops[i].index;
    MarkAt(earlier[k].ops, i);
    GroupMarks(earlier, k, x);
    forall m | 0 <= m < |wave| ensures !Touches(wave[m].ops, x) {
      if Touches(wave[m].ops, x) {
        var j :| 0 <= j < |wave[m].ops| && wave[m].ops[j].index == x;
        MarkAt(wave[m].ops, j);
        GroupMarks(wave, m, x);
      }
    }
  }

  lemma ExplainedKept(r: Round, k: nat, wave: Groups, before: seq<WriteResult>, after: seq<WriteResult>,
                      part: seq<Event>)
    requires k < |r.wave| && DistinctIndexes(r.wave[k].ops, |before|) && Explained(r, k, before, part)
    requires Framed(wave, before, after) && forall x :: Marks(r.wave, x) + Marks(wave, x) <= 1
    ensures Explained(r, k, after, part)
  {
    hide Final, Marks, InSome, ConflictAlways, NothingWritten;
    var ops := r.wave[k].ops;
    forall i | 0 <= i < |ops| ensures before[ops[i].index] == after[ops[i].index] {
      NotAgain(r.wave, k, i, wave);
    }
    assert SameFor(ops, before, after);
    FinalFrame(r.luas, r.limit, r.wave[k].key, ops, before, after, part, part);
  }

  lemma DoneKept(r: Round, wave: Groups, before: seq<WriteResult>, after: seq<WriteResult>, log: seq<Event>,
                 more: seq<Event>)
    requires Done(r, before, log) && log <= more && Framed(wave, before, after)
    requires forall x :: Marks(r.wave, x) + Marks(wave, x) <= 1
    ensures Done(r, after, more)
  {
    assert more[r.since..r.until] == log[r.since..r.until];
    hide Explained, Marks, Framed, Alone;
    forall k | 0 <= k < |r.wave| ensures Explained(r, k, after, more[r.since..r.until]) {
      ExplainedKept(r, k, wave, before, after, log[r.since..r.until]);
    }
  }

  /** No operation is counted twice, so what one round writes no other does. */
  lemma RoundApart(rounds: seq<Round>, groups: Groups, wave: Groups, next: Groups, initial: Groups, size: nat, r: nat,
                   x: nat)
    requires RoundMarks(rounds, x) + Marks(groups, x) == Marks(initial, x) && Separate(initial, size)
    requires SplitMarks(groups, wave, next) && r < |rounds|
    ensures Marks(rounds[r].wave, x) + Marks(wave, x) <= 1
  {
    hide Marks, RoundMarks;
    WaveMarks(rounds, r, x);
    assert Marks(wave, x) + Marks(next, x) == Marks(groups, x);
    assert Marks(initial, x) <= 1;
  }

  // ---------------------------------------------------------------------
  // Operations that have not run
  // ---------------------------------------------------------------------

  ghost predicate Unwritten(groups: Groups, results: seq<WriteResult>) {
    forall x: nat :: x < |results| && Marks(groups, x) > 0 ==> results[x] == Reset()
  }

  lemma UnwrittenReset(groups: Groups, results: seq<WriteResult>)
    requires Unwritten(groups, results) && Separate(groups, |results|)
    ensures AllReset(groups, results)
  {
    hide Marks, MarksOf;
    forall k, i | 0 <= k < |groups| && 0 <= i < |groups[k].ops|
      ensures groups[k].ops[i].index < |results| && results[groups[k].ops[i].index] == Reset()
    {
      var x := groups[k].ops[i].index;
      MarkAt(groups[k].ops, i);
      GroupMarks(groups, k, x);
      assert Marks(groups, x) <= (if x < |results| then 1 else 0);
    }
  }

  lemma UnmarkedOutside(wave: Groups, x: nat)
    requires Marks(wave, x) == 0
    ensures !InSome(wave, x)
  {
    hide Marks, MarksOf;
    forall m | 0 <= m < |wave| ensures !Touches(wave[m].ops, x) {
      if Touches(wave[m].ops, x) {
        var j :| 0 <= j < |wave[m].ops| && wave[m].ops[j].index == x;
        MarkAt(wave[m].ops, j);
        GroupMarks(wave, m, x);
      }
    }
  }

  lemma StillUnwritten(groups: Groups, wave: Groups, next: Groups, before: seq<WriteResult>, after: seq<WriteResult>)
    requires Unwritten(groups, before) && SplitMarks(groups, wave, next) && Separate(groups, |before|)
    requires Framed(wave, before, after)
    ensures Unwritten(next, after)
  {
    hide Marks, InSome;
    forall x: nat | x < |after| && Marks(next, x) > 0 ensures after[x] == Reset() {
      assert Marks(wave, x) + Marks(next, x) == Marks(groups, x) <= 1;
      UnmarkedOutside(wave, x);
    }
  }

  // ---------------------------------------------------------------------
  // The request
  // ---------------------------------------------------------------------

  ghost predicate NonEmpty(groups: Groups) {
    forall k :: 0 <= k < |groups| ==> groups[k].ops != []
  }

  /** The rounds so far and the groups that are left make up the request. */
  ghost predicate Conserving(initial: Groups, rounds: seq<Round>, groups: Groups) {
    && (forall key :: Executed(rounds, key) + OnKey(groups, key) == OnKey(initial, key))
    && (forall x :: RoundMarks(rounds, x) + Marks(groups, x) == Marks(initial, x))
  }

  lemma ConservingNext(initial: Groups, rounds: seq<Round>, groups: Groups, wave: Groups, next: Groups, round: Round)
    requires Conserving(initial, rounds, groups) && SplitOf(groups, wave, next) && round.wave == wave
    ensures Conserving(initial, rounds + [round], next)
  {
    assert (rounds + [round])[..|rounds|] == rounds;
    forall key ensures Executed(rounds + [round], key) + OnKey(next, key) == OnKey(initial, key) {
      assert Executed(rounds + [round], key) == Executed(rounds, key) + OnKey(wave, key);
      hide OnKey, Executed;
      assert OnKey(wave, key) + OnKey(next, key) == OnKey(groups, key);
      assert Executed(rounds, key) + OnKey(wave, key) + OnKey(next, key)
          == Executed(rounds, key) + (OnKey(wave, key) + OnKey(next, key));
    }
    forall x ensures RoundMarks(rounds + [round], x) + Marks(next, x) == Marks(initial, x) {
      assert RoundMarks(rounds + [round], x) == RoundMarks(rounds, x) + Marks(wave, x);
      hide Marks, RoundMarks;
      assert Marks(wave, x) + Marks(next, x) == Marks(groups, x);
    }
  }

  lemma StillSeparate(initial: Groups, rounds: seq<Round>, groups: Groups, size: nat)
    requires Conserving(initial, rounds, groups) && Separate(initial, size)
    ensures Separate(groups, size)
  {
    hide Marks, RoundMarks;
    forall x: nat ensures Marks(groups, x) <= (if x < size then 1 else 0) {
      assert RoundMarks(rounds, x) + Marks(groups, x) == Marks(initial, x);
    }
  }

  lemma WaveSeparate(groups: Groups, wave: Groups, next: Groups, size: nat)
    requires Separate(groups, size) && SplitMarks(groups, wave, next)
    ensures Separate(wave, size)
  {
    hide Marks;
    forall x: nat ensures Marks(wave, x) <= (if x < size then 1 else 0) {
      assert Marks(wave, x) + Marks(next, x) == Marks(groups, x);
    }
  }

  ghost predicate AllDone(rounds: seq<Round>, results: seq<WriteResult>, log: seq<Event>) {
    forall r :: 0 <= r < |rounds| ==> Done(rounds[r], results, log)
  }

  lemma AllDoneNext(initial: Groups, rounds: seq<Round>, groups: Groups, wave: Groups, next: Groups, round: Round,
                    before: seq<WriteResult>, after: seq<WriteResult>, log: seq<Event>, more: seq<Event>)
    requires Conserving(initial, rounds, groups) && Separate(initial, |before|) && SplitMarks(groups, wave, next)
    requires AllDone(rounds, before, log) && Done(round, after, more) && log <= more && Framed(wave, before, after)
    ensures AllDone(rounds + [round], after, more)
  {
    hide Done, Marks, RoundMarks, Framed, Separate, SplitMarks;
    forall r | 0 <= r < |rounds| ensures Done(rounds[r], after, more) {
      forall x ensures Marks(rounds[r].wave, x) + Marks(wave, x) <= 1 {
        assert RoundMarks(rounds, x) + Marks(groups, x) == Marks(initial, x);
        RoundApart(rounds, groups, wave, next, initial, |before|, r, x);
      }
      DoneKept(rounds[r], wave, before, after, log, more);
    }
  }

  // ---------------------------------------------------------------------
  // Returned documents
  // ---------------------------------------------------------------------

  /** The write `e` is the commit of `op` alone, and `document` is what `op` makes
      of the record as it was at that instant. */
  ghost predicate Own(key: nat, op: Operation, document: Document, luas: Luas, e: Event) {
    && e.key == key && e.outcome.StoredApplied? && e.commit.document == document
    && Execute(luas(e.attempt), op, DocumentOf(e.before)) == Wrote(document)
  }

  /** In this round some write is the operation's own commit. */
  ghost predicate OwnIn(r: Round, key: nat, op: Operation, document: Document, log: seq<Event>)
    requires r.since <= r.until <= |log|
  {
    exists j :: r.since <= j < r.until && Own(key, op, document, r.luas, log[j])
  }

  lemma ReturnedAlone(luas: Luas, limit: nat, key: nat, ops: seq<Operation>, results: seq<WriteResult>,
                      part: seq<Event>, i: nat)
    requires DistinctIndexes(ops, |results|) && Final(luas, limit, key, ops, results, part)
    requires i < |ops| && results[ops[i].index].document.Some? && (|ops| == 1 || !HasReturns(ops))
    ensures exists j: nat :: j < |part| && Own(key, ops[i], results[ops[i].index].document.value, luas, part[j])
  {
    assert !AllFailed(ops, results);
    var j: nat :| Committed(luas, key, ops, results, part, j);
    assert ops[i].returnDocument;
    assert HasReturns(ops) && ops == [ops[i]];
    ReturnedIsOwn(luas, key, ops[i], results, part, j);
    assert Own(key, ops[i], results[ops[i].index].document.value, luas, part[j]);
  }

  lemma ReturnedInRound(r: Round, results: seq<WriteResult>, log: seq<Event>, k: nat, i: nat)
    requires Done(r, results, log) && k < |r.wave| && i < |r.wave[k].ops|
    requires results[r.wave[k].ops[i].index].document.Some?
    ensures OwnIn(r, r.wave[k].key, r.wave[k].ops[i], results[r.wave[k].ops[i].index].document.value, log)
  {
    assert Explained(r, k, results, log[r.since..r.until]);
    hide Final, Own, HasReturns, Disjoint;
    ReturnedAlone(r.luas, r.limit, r.wave[k].key, r.wave[k].ops, results, log[r.since..r.until], i);
    var j :| 0 <= j < r.until - r.since
             && Own(r.wave[k].key, r.wave[k].ops[i], results[r.wave[k].ops[i].index].document.value, r.luas,
                    log[r.since..r.until][j]);
    assert log[r.since + j] == log[r.since..r.until][j];
  }

  // ---------------------------------------------------------------------
  // Request order
  // ---------------------------------------------------------------------

  /** The round that runs the operation at position `i` of a record. */
  function RoundOf(rounds: seq<Round>, key: nat, i: nat): (r: nat)
    requires i < |Executed(rounds, key)|
    ensures r < |rounds|
  {
    var n := |rounds| - 1;
    if i < |Executed(rounds[..n], key)| then RoundOf(rounds[..n], key, i) else n
  }

  /** Operations on a record run in rounds in request order. */
  lemma {:induction false} RoundOrder(rounds: seq<Round>, key: nat, i: nat, j: nat)
    requires i <= j < |Executed(rounds, key)|
    ensures RoundOf(rounds, key, i) <= RoundOf(rounds, key, j)
  {
    var n := |rounds| - 1;
    if j < |Executed(rounds[..n], key)| {
      RoundOrder(rounds[..n], key, i, j);
    }
  }

  lemma {:induction false} GroupOnKey(groups: Groups, key: nat, i: nat) returns (k: nat)
    requires DistinctKeys(groups) && i < |OnKey(groups, key)|
    ensures k < |groups| && groups[k].key == key && OnKey(groups, key) == groups[k].ops
  {
    var n := |groups| - 1;
    if groups[n].key == key {
      OnKeyAbsent(groups[..n], key);
      k := n;
    } else {
      k := GroupOnKey(groups[..n], key, i);
    }
  }

  /** The operation is in the group of its record in its round, behind the
      operations of that record that the earlier rounds ran. */
  lemma {:induction false} RoundHolds(rounds: seq<Round>, key: nat, i: nat) returns (k: nat)
    requires i < |Executed(rounds, key)| && forall r :: 0 <= r < |rounds| ==> DistinctKeys(rounds[r].wave)
    ensures var r := RoundOf(rounds, key, i);
            var before := |Executed(rounds[..r], key)|;
            && k < |rounds[r].wave| && rounds[r].wave[k].key == key && before <= i < before + |rounds[r].wave[k].ops|
            && rounds[r].wave[k].ops[i - before] == Executed(rounds, key)[i]
  {
    var n := |rounds| - 1;
    if i < |Executed(rounds[..n], key)| {
      k := RoundHolds(rounds[..n], key, i);
      assert rounds[..n][..RoundOf(rounds, key, i)] == rounds[..RoundOf(rounds, key, i)];
    } else {
      k := GroupOnKey(rounds[n].wave, key, i - |Executed(rounds[..n], key)|);
    }
  }

  /** Two operations on one record, the first one earlier in the request: they are
      in one group of one round, the first one earlier, or the round of the first
      one was over before the round of the second one wrote anything. */
  lemma CommitsInOrder(rounds: seq<Round>, start: nat, end: nat, key: nat, i: nat, j: nat)
    requires i < j < |Executed(rounds, key)| && Chained(rounds, start, end)
    ensures var a, b := RoundOf(rounds, key, i), RoundOf(rounds, key, j);
            a == b || (a < b && rounds[a].until <= rounds[b].since)
  {
    RoundOrder(rounds, key, i, j);
    var a, b := RoundOf(rounds, key, i), RoundOf(rounds, key, j);
    if a < b {
      ChainedOrder(rounds, start, end, a, b);
    }
  }

  // ---------------------------------------------------------------------
  // Running the rounds
  // ---------------------------------------------------------------------

  /** `owners` tells the caller of every operation. */
  datatype Settings = Settings(
    owners: seq<nat>, callers: nat, batched: bool, managed: bool, maxReadBytes: nat, maxAttempts: nat)

  ghost predicate Suits(s: Settings, size: nat) {
    |s.owners| == size && forall i :: 0 <= i < size ==> s.owners[i] < s.callers
  }

  lemma SuitsAll(s: Settings, groups: Groups, size: nat)
    requires Suits(s, size) && Disjoint(groups, size)
    ensures forall k :: 0 <= k < |groups| ==> Owned(groups[k].ops, s.owners, s.callers)
  {
    forall k | 0 <= k < |groups| ensures Owned(groups[k].ops, s.owners, s.callers) {
      assert DistinctIndexes(groups[k].ops, size);
    }
  }

  /** The rounds ran on the given Lua engines, with the given number of attempts. */
  ghost predicate Played(rounds: seq<Round>, luas: nat -> Luas, s: Settings) {
    forall r :: 0 <= r < |rounds| ==> rounds[r].luas == luas(r) && rounds[r].limit == s.maxAttempts
  }

  /** One round, on a backend that earlier rounds and other writers have used. */
  method RunRound(wave: Groups, luas: Luas, s: Settings, backend: Backend, results: array<WriteResult>,
                  allowance: Returns)
    returns (failed: bool, ghost round: Round)
    requires DistinctKeys(wave) && NonEmpty(wave) && Alone(wave)
    requires Separate(wave, results.Length) && Unwritten(wave, results[..]) && Suits(s, results.Length)
    requires backend.Faithful() && Funded(results[..], allowance.State())
    modifies results, backend, allowance
    ensures !failed ==> backend.Faithful() && Funded(results[..], allowance.State())
    ensures !failed ==> old(backend.log) <= backend.log && Framed(wave, old(results[..]), results[..])
    ensures !failed ==>
              round == Round(wave, luas, s.maxAttempts, |old(backend.log)|, |backend.log|, round.completed)
    ensures !failed ==> Done(round, results[..], backend.log)
  {
    hide Alone, DistinctKeys, Separate, Unwritten, Disjoint, AllReset, Suits, Funded, Framed, Final, Clean;
    SeparateDisjoint(wave, results.Length);
    UnwrittenReset(wave, results[..]);
    SuitsAll(s, wave, results.Length);
    var e := new Executor(wave, luas, s.owners, s.callers, s.batched, s.managed, s.maxReadBytes, s.maxAttempts,
                          backend, results, allowance);
    failed := e.ExecuteWriteWave();
    round := Round(wave, luas, s.maxAttempts, |e.earlier|, |backend.log|, e.completed);
    if !failed {
      RoundOver(round, results[..], e.earlier, backend.log);
    }
  }

  lemma RoundOver(round: Round, results: seq<WriteResult>, earlier: seq<Event>, log: seq<Event>)
    requires Disjoint(round.wave, |results|) && Alone(round.wave) && |round.completed| == |round.wave|
    requires earlier <= log && round.since == |earlier| && round.until == |log|
    requires forall k :: 0 <= k < |round.wave| ==>
               && multiset(round.completed)[k] == 1
               && Final(round.luas, round.limit, round.wave[k].key, round.wave[k].ops, results, Since(earlier, log))
               && RetriesRight(round.limit, round.wave[k].key, round.wave[k].ops, results, Since(earlier, log))
    ensures Done(round, results, log)
  {
    hide Final, Alone, RetriesRight;
    assert log[round.since..round.until] == Since(earlier, log);
    forall k | 0 <= k < |round.wave| ensures Explained(round, k, results, log[round.since..round.until]) {
    }
  }

  /** Every operation of the request that returned a document returned its own
      committed result, and one that is told that its retries are used up met a
      conflict in every attempt of its round, which wrote nothing to its record. */
  ghost predicate OwnResults(initial: Groups, rounds: seq<Round>, results: seq<WriteResult>, log: seq<Event>)
    requires forall key :: Executed(rounds, key) == OnKey(initial, key)
    requires forall r :: 0 <= r < |rounds| ==> rounds[r].since <= rounds[r].until <= |log|
  {
    forall key, i :: 0 <= i < |OnKey(initial, key)| ==> OwnResult(rounds, key, i, results, log)
  }

  ghost predicate OwnResult(rounds: seq<Round>, key: nat, i: nat, results: seq<WriteResult>, log: seq<Event>)
    requires i < |Executed(rounds, key)|
        && forall r :: 0 <= r < |rounds| ==> rounds[r].since <= rounds[r].until <= |log|
  {
    var op := Executed(rounds, key)[i];
    && op.index < |results|
    && (results[op.index].document.Some? ==>
          OwnIn(rounds[RoundOf(rounds, key, i)], key, op, results[op.index].document.value, log))
    && (ByRetries(results[op.index]) ==> UsedUpIn(rounds[RoundOf(rounds, key, i)], key, log))
  }

  /** In this round every attempt on the record met a conflict. */
  ghost predicate UsedUpIn(r: Round, key: nat, log: seq<Event>)
    requires r.since <= r.until <= |log|
  {
    var part := log[r.since..r.until];
    NothingWritten(part, key) && ConflictAlways(part, key, r.limit)
  }

  lemma ToldInRound(r: Round, results: seq<WriteResult>, log: seq<Event>, k: nat, i: nat)
    requires Done(r, results, log) && k < |r.wave| && i < |r.wave[k].ops|
    requires ByRetries(results[r.wave[k].ops[i].index])
    ensures UsedUpIn(r, r.wave[k].key, log)
  {
    hide Final, ConflictAlways, NothingWritten, Alone, AllReport, DirectPut;
    assert DistinctIndexes(r.wave[k].ops, |results|);
    assert Explained(r, k, results, log[r.since..r.until]);
    assert Told(r.wave[k].ops, results);
  }

  lemma AllOwn(rounds: seq<Round>, results: seq<WriteResult>, log: seq<Event>, key: nat, i: nat)
    requires AllDone(rounds, results, log) && i < |Executed(rounds, key)|
    ensures forall r :: 0 <= r < |rounds| ==> rounds[r].since <= rounds[r].until <= |log|
    ensures OwnResult(rounds, key, i, results, log)
  {
    hide OwnIn, UsedUpIn, Executed, RoundOf, Explained;
    var k := RoundHolds(rounds, key, i);
    var r := RoundOf(rounds, key, i);
    var n := i - |Executed(rounds[..r], key)|;
    assert Done(rounds[r], results, log) && DistinctIndexes(rounds[r].wave[k].ops, |results|);
    if results[rounds[r].wave[k].ops[n].index].document.Some? {
      ReturnedInRound(rounds[r], results, log, k, n);
    }
    if ByRetries(results[rounds[r].wave[k].ops[n].index]) {
      ToldInRound(rounds[r], results, log, k, n);
    }
  }

  /** `executeWriteGroups`: when it returns without an error, then over all rounds
      every record saw exactly its operations, once each and in request order;
      every group was completed once and its report is explained by at most one
      write of its own round that was not refused; rounds wrote one after another;
      every returned document is the operation's own committed result; an operation
      that is told that its retries are used up wrote nothing; and no caller's
      documents exceed its allowance. */
  method ExecuteWriteGroups(initial: Groups, luas: nat -> Luas, s: Settings, backend: Backend,
                            results: array<WriteResult>,
                            allowance: Returns)
    returns (failed: bool, ghost rounds: seq<Round>)
    requires DistinctKeys(initial) && NonEmpty(initial)
    requires Separate(initial, results.Length) && Unwritten(initial, results[..]) && Suits(s, results.Length)
    requires backend.Faithful() && Funded(results[..], allowance.State())
    modifies results, backend, allowance
    ensures !failed ==> forall key :: Executed(rounds, key) == OnKey(initial, key)
    ensures !failed ==> old(backend.log) <= backend.log && Chained(rounds, |old(backend.log)|, |backend.log|)
    ensures !failed ==> AllDone(rounds, results[..], backend.log) && Played(rounds, luas, s)
    ensures !failed ==> OwnResults(initial, rounds, results[..], backend.log)
    ensures !failed ==> forall c :: 0 <= c < |allowance.maximum| ==>
              Returned(allowance.owners, results[..], c) <= allowance.maximum[c]
  {
    hide Separate, Unwritten, Suits, Funded, AllDone, Conserving, Chained, OwnResult, Alone, DistinctKeys, Done;
    failed, rounds := false, [];
    var groups := initial;
    ConservingStart(initial);
    Nothing(results[..], backend.log);
    var n := 0;
    while |groups| > 0
      invariant DistinctKeys(groups) && NonEmpty(groups) && Unwritten(groups, results[..])
      invariant Conserving(initial, rounds, groups)
      invariant backend.Faithful() && Funded(results[..], allowance.State())
      invariant old(backend.log) <= backend.log && Chained(rounds, |old(backend.log)|, |backend.log|)
      invariant AllDone(rounds, results[..], backend.log) && Played(rounds, luas, s) && n == |rounds|
      decreases Total(groups)
    {
      var wave, next := SplitWave(groups);
      ghost var before, log := results[..], backend.log;
      NonEmptyTotal(wave);
      StillSeparate(initial, rounds, groups, results.Length);
      WaveReady(groups, wave, next, before);
      ghost var round;
      failed, round := RunRound(wave, luas(n), s, backend, results, allowance);
      if failed {
        return;
      }
      AllDoneNext(initial, rounds, groups, wave, next, round, before, results[..], log, backend.log);
      ConservingNext(initial, rounds, groups, wave, next, round);
      StillUnwritten(groups, wave, next, before, results[..]);
      ChainedNext(rounds, |old(backend.log)|, |log|, round);
      rounds := rounds + [round];
      groups, n := next, n + 1;
    }
    Over(initial, rounds, results[..], backend.log, allowance.State());
  }

  lemma ConservingStart(initial: Groups)
    ensures Conserving(initial, [], initial)
  {
  }

  lemma Nothing(results: seq<WriteResult>, log: seq<Event>)
    ensures AllDone([], results, log) && Chained([], |log|, |log|)
  {
  }

  lemma WaveReady(groups: Groups, wave: Groups, next: Groups, results: seq<WriteResult>)
    requires SplitOf(groups, wave, next) && Separate(groups, |results|) && Unwritten(groups, results)
    ensures SplitMarks(groups, wave, next) && Separate(wave, |results|) && Unwritten(wave, results)
    ensures DistinctKeys(wave) && NonEmpty(wave) && Alone(wave) && DistinctKeys(next) && NonEmpty(next)
    ensures Total(wave) + Total(next) == Total(groups) && |wave| == |groups|
  {
    hide Marks, Total, Alone, DistinctKeys, SameOrder, KeysIn;
    WaveSeparate(groups, wave, next, |results|);
    forall x: nat | x < |results| && Marks(wave, x) > 0 ensures results[x] == Reset() {
      assert Marks(wave, x) + Marks(next, x) == Marks(groups, x);
    }
  }

  lemma Over(initial: Groups, rounds: seq<Round>, results: seq<WriteResult>, log: seq<Event>, a: Allowances)
    requires Conserving(initial, rounds, []) && AllDone(rounds, results, log) && Funded(results, a)
    ensures forall key :: Executed(rounds, key) == OnKey(initial, key)
    ensures forall r :: 0 <= r < |rounds| ==> rounds[r].since <= rounds[r].until <= |log|
    ensures OwnResults(initial, rounds, results, log)
    ensures |a.owners| == |results|
    ensures forall c :: 0 <= c < |a.maximum| ==> Returned(a.owners, results, c) <= a.maximum[c]
  {
    forall key ensures Executed(rounds, key) == OnKey(initial, key) {
      assert Executed(rounds, key) + OnKey([], key) == OnKey(initial, key);
    }
    hide Executed, OnKey, OwnResult, Returned;
    assert forall r :: 0 <= r < |rounds| ==> Done(rounds[r], results, log);
    forall key, i | 0 <= i < |OnKey(initial, key)| ensures OwnResult(rounds, key, i, results, log) {
      AllOwn(rounds, results, log, key, i);
    }
    forall c | 0 <= c < |a.maximum| ensures Returned(a.owners, results, c) <= a.maximum[c] {
      ReturnsBounded(a, results, c);
    }
  }

  // ---------------------------------------------------------------------
  // From the parsed request
  // ---------------------------------------------------------------------

  ghost predicate DistinctResults(parsed: seq<Parsed>, size: nat) {
    && (forall i :: 0 <= i < |parsed| ==> parsed[i].op.index < size)
    && (forall i, j :: 0 <= i < j < |parsed| ==> parsed[i].op.index != parsed[j].op.index)
  }

  ghost predicate Named(parsed: seq<Parsed>, x: nat) {
    exists i :: 0 <= i < |parsed| && parsed[i].op.index == x
  }

  lemma {:induction false} ParsedOnce(parsed: seq<Parsed>, size: nat, x: nat)
    requires DistinctResults(parsed, size)
    ensures ParsedMarks(parsed, x) == if Named(parsed, x) then 1 else 0
  {
    if parsed != [] {
      var n := |parsed| - 1;
      ParsedOnce(parsed[..n], size, x);
      assert parsed == parsed[..n] + [parsed[n]];
      assert Named(parsed, x) <==> Named(parsed[..n], x) || parsed[n].op.index == x;
      assert !Named(parsed[..n], parsed[n].op.index);
    }
  }

  lemma ParsedSeparate(parsed: seq<Parsed>, groups: Groups, results: seq<WriteResult>)
    requires DistinctResults(parsed, |results|) && SameMarks(parsed, groups)
    requires forall i :: 0 <= i < |parsed| ==> results[parsed[i].op.index] == Reset()
    ensures Separate(groups, |results|) && Unwritten(groups, results)
  {
    hide Marks, ParsedMarks;
    forall x: nat
      ensures Marks(groups, x) <= (if x < |results| then 1 else 0)
      ensures x < |results| && Marks(groups, x) > 0 ==> results[x] == Reset()
    {
      ParsedOnce(parsed, |results|, x);
      assert Marks(groups, x) == ParsedMarks(parsed, x);
    }
  }

  lemma BuiltOnKey(parsed: seq<Parsed>, groups: Groups, key: nat)
    requires DistinctKeys(groups)
    requires forall i :: 0 <= i < |groups| ==> groups[i].ops == Of(parsed, groups[i].key)
    requires Of(parsed, key) != [] ==> exists i :: 0 <= i < |groups| && groups[i].key == key
    ensures OnKey(groups, key) == Of(parsed, key)
  {
    hide Of;
    if i :| 0 <= i < |groups| && groups[i].key == key {
      OnKeyAt(groups, i);
    } else {
      OnKeyAbsent(groups, key);
    }
  }

  lemma {:induction false} OnKeyAt(groups: Groups, k: nat)
    requires DistinctKeys(groups) && k < |groups|
    ensures OnKey(groups, groups[k].key) == groups[k].ops
  {
    var n := |groups| - 1;
    if k < n {
      OnKeyAt(groups[..n], k);
    } else {
      OnKeyAbsent(groups[..n], groups[n].key);
    }
  }

  /** A whole request, from its parsed operations: the same for the operations on
      each record in request order. */
  method ExecuteRequest(parsed: seq<Parsed>, luas: nat -> Luas, s: Settings, backend: Backend,
                        results: array<WriteResult>,
                        allowance: Returns)
    returns (failed: bool, ghost groups: Groups, ghost rounds: seq<Round>)
    requires DistinctResults(parsed, results.Length) && Suits(s, results.Length)
    requires forall i :: 0 <= i < |parsed| ==> results[parsed[i].op.index] == Reset()
    requires backend.Faithful() && Funded(results[..], allowance.State())
    modifies results, backend, allowance
    ensures !failed ==> forall key :: Executed(rounds, key) == OnKey(groups, key) == Of(parsed, key)
    ensures !failed ==> old(backend.log) <= backend.log && Chained(rounds, |old(backend.log)|, |backend.log|)
    ensures !failed ==> AllDone(rounds, results[..], backend.log) && Played(rounds, luas, s)
    ensures !failed ==> OwnResults(groups, rounds, results[..], backend.log)
    ensures !failed ==> forall c :: 0 <= c < |allowance.maximum| ==>
              Returned(allowance.owners, results[..], c) <= allowance.maximum[c]
  {
    hide Suits, Funded, AllDone, Chained, OwnResult, OwnResults, SameMarks, Separate, Unwritten, Executed, OnKey;
    var built := BuildWriteGroups(parsed);
    groups := built;
    ParsedSeparate(parsed, built, results[..]);
    forall key ensures OnKey(built, key) == Of(parsed, key) {
      BuiltOnKey(parsed, built, key);
    }
    failed, rounds := ExecuteWriteGroups(built, luas, s, backend, results, allowance);
  }
}
