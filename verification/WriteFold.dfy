/** Folding the ordered writes of one record into one conditional commit
    (internal/service/write_group.go). */
module WriteFolding {
  import opened Options

  datatype Document = Document(encoding: nat, payload: string)

  /** The empty revision is the revision of a record that has none. */
  type Revision = string

  datatype Precondition =
    | Always
    | RecordExists
    | RecordNotExists
    | RevisionAbsent
    | RevisionMatches(revision: Revision)

  datatype FailureCode =
    | InvalidArgument | ResourceExhausted | Unavailable | Conflict
    | PreconditionFailure | DeadlineExceeded | Internal

  /** What a failure is about; a client sees only the code. */
  datatype Cause = OfSnapshot | OfCondition | OfLua | OfBudget | OfStorage | OfRetries

  datatype Failure = Failure(code: FailureCode, retryable: bool, cause: Cause)

  datatype Action =
    | Put(document: Document, condition: Precondition)
    | Merge(incoming: Document, program: nat, observedAt: nat)

  datatype Operation = Operation(index: nat, action: Action, returnDocument: bool)

  datatype Status = Unspecified | Applied | PreconditionFailed | Failed

  datatype WriteResult = WriteResult(
    status: Status, revision: Option<Revision>, failure: Option<Failure>, document: Option<Document>)

  datatype ReadResult =
    | Found(document: Document, revision: Revision)
    | NotFound
    | ReadFailed(code: FailureCode, retryable: bool)
    | Unsupported(code: FailureCode, retryable: bool)
  {
    predicate Readable() { Found? || NotFound? }
  }

  /** One conditional storage write. */
  datatype Commit = Commit(document: Document, precondition: Precondition)

  /** The Lua engine: what merging `op` into a record yields. */
  datatype MergeOutcome = Merged(document: Document) | MergeError(code: FailureCode, retryable: bool)
  type Lua = (Operation, Option<Document>) -> MergeOutcome

  // ---------------------------------------------------------------------
  // The reference: running operations one after another on one record
  // ---------------------------------------------------------------------

  datatype Verdict = Wrote(document: Document) | Refused(status: Status, failure: Failure)

  function FailureStatus(code: FailureCode): Status {
    if code == Conflict || code == PreconditionFailure then PreconditionFailed else Failed
  }

  function RefusedBy(failure: Failure): Verdict {
    Refused(FailureStatus(failure.code), failure)
  }

  /** One operation on a record that holds `current`, or does not exist. */
  function Execute(lua: Lua, op: Operation, current: Option<Document>): Verdict {
    match op.action
    case Put(document, condition) =>
      if (condition == RecordExists && current == None) || (condition == RecordNotExists && current != None)
      then Refused(PreconditionFailed, Failure(PreconditionFailure, false, OfCondition))
      else Wrote(document)
    case Merge(_, _, _) =>
      match lua(op, current)
      case MergeError(code, retryable) => RefusedBy(Failure(code, retryable, OfLua))
      case Merged(document) =>
        if document.payload == "" then RefusedBy(Failure(Internal, false, OfLua)) else Wrote(document)
  }

  /** The record after running, in order, exactly the operations that `kept`
      selects; None when one of them would be refused. */
  function Replay(lua: Lua, ops: seq<Operation>, kept: seq<bool>, current: Option<Document>)
    : Option<Option<Document>>
    requires |ops| == |kept|
  {
    if ops == [] then Some(current)
    else
      match Replay(lua, ops[..|ops| - 1], kept[..|ops| - 1], current)
      case None => None
      case Some(record) =>
        if !kept[|ops| - 1] then Some(record)
        else
          match Execute(lua, ops[|ops| - 1], record)
          case Wrote(document) => Some(Some(document))
          case Refused(_, _) => None
  }

  lemma {:induction false} ReplayConcat(
      lua: Lua, ops: seq<Operation>, more: seq<Operation>, kept: seq<bool>, keptMore: seq<bool>,
      current: Option<Document>)
    requires |ops| == |kept| && |more| == |keptMore|
    ensures Replay(lua, ops + more, kept + keptMore, current)
         == match Replay(lua, ops, kept, current)
            case None => None
            case Some(record) => Replay(lua, more, keptMore, record)
  {
    if more == [] {
      assert ops + more == ops && kept + keptMore == kept;
    } else {
      var n := |more| - 1;
      assert (ops + more)[..|ops| + n] == ops + more[..n];
      assert (kept + keptMore)[..|ops| + n] == kept + keptMore[..n];
      ReplayConcat(lua, ops, more[..n], kept, keptMore[..n], current);
    }
  }

  lemma {:induction false} ReplayNothing(lua: Lua, ops: seq<Operation>, kept: seq<bool>, current: Option<Document>)
    requires |ops| == |kept| && forall i :: 0 <= i < |kept| ==> !kept[i]
    ensures Replay(lua, ops, kept, current) == Some(current)
  {
    if ops != [] {
      ReplayNothing(lua, ops[..|ops| - 1], kept[..|ops| - 1], current);
    }
  }

  // ---------------------------------------------------------------------
  // Snapshots and preconditions
  // ---------------------------------------------------------------------

  function Contents(stored: ReadResult): Option<Document>
    requires stored.Readable()
  {
    if stored.Found? then Some(stored.document) else None
  }

  /** The precondition that says the record is still as it was read. */
  function Describes(stored: ReadResult): Precondition
    requires stored.Readable()
  {
    if stored.NotFound? then RecordNotExists
    else if stored.revision == "" then RevisionAbsent
    else RevisionMatches(stored.revision)
  }

  function Reset(): WriteResult { WriteResult(Unspecified, None, None, None) }

  /** What a result says between evaluation and commit. */
  function Shown(v: Verdict): WriteResult {
    if v.Wrote? then Reset() else WriteResult(v.status, None, Some(v.failure), None)
  }

  /** `prepareFoldedPut` and `prepareMergeOperation`: the commit that one
      operation would make on the current, possibly speculative, snapshot. */
  function Prepare(lua: Lua, op: Operation, current: ReadResult): (Verdict, Commit) {
    if current.Readable() then
      var v := Execute(lua, op, Contents(current));
      (v, if v.Wrote? then Commit(v.document, Describes(current)) else NoCommit)
    else (RefusedBy(Unread(op, current)), NoCommit)
  }

  /** A put reports the error of an unusable snapshot; a merge does so only
      for a failed read and calls any other status an internal error. */
  function Unread(op: Operation, current: ReadResult): Failure
    requires !current.Readable()
  {
    if op.action.Put? || current.ReadFailed? then Failure(current.code, current.retryable, OfSnapshot)
    else Failure(Internal, false, OfSnapshot)
  }

  const NoCommit := Commit(Document(0, ""), Always)

  /** A record that now holds `document`, keeping the snapshot's revision. */
  function Advance(current: ReadResult, document: Document): ReadResult {
    Found(document, if current.Found? then current.revision else "")
  }

  // ---------------------------------------------------------------------
  // Results, indexed by operation
  // ---------------------------------------------------------------------

  ghost predicate DistinctIndexes(ops: seq<Operation>, size: nat) {
    && (forall i :: 0 <= i < |ops| ==> ops[i].index < size)
    && (forall i, j :: 0 <= i < j < |ops| ==> ops[i].index != ops[j].index)
  }

  function Flags(verdicts: seq<Verdict>): (kept: seq<bool>)
    ensures |kept| == |verdicts|
  {
    seq(|verdicts|, i requires 0 <= i < |verdicts| => verdicts[i].Wrote?)
  }

  /** The results after every operation has reported its verdict. */
  function Reported(results: seq<WriteResult>, ops: seq<Operation>, verdicts: seq<Verdict>): (r: seq<WriteResult>)
    requires |ops| == |verdicts| && forall i :: 0 <= i < |ops| ==> ops[i].index < |results|
    ensures |r| == |results|
  {
    if ops == [] then results
    else
      var n := |ops| - 1;
      Reported(results, ops[..n], verdicts[..n])[ops[n].index := Shown(verdicts[n])]
  }

  ghost predicate Touches(ops: seq<Operation>, k: nat) {
    exists i :: 0 <= i < |ops| && ops[i].index == k
  }

  ghost predicate SameOutside(ops: seq<Operation>, before: seq<WriteResult>, after: seq<WriteResult>) {
    && |before| == |after|
    && (forall k :: 0 <= k < |before| && !Touches(ops, k) ==> after[k] == before[k])
  }

  lemma TouchesLast(ops: seq<Operation>, k: nat)
    requires ops != []
    ensures Touches(ops, k) <==> Touches(ops[..|ops| - 1], k) || ops[|ops| - 1].index == k
  {
    var n := |ops| - 1;
    assert forall i :: 0 <= i < n ==> ops[..n][i] == ops[i];
    if Touches(ops[..n], k) {
      var i :| 0 <= i < n && ops[..n][i].index == k;
      assert ops[i].index == k;
    }
  }

  lemma {:induction false} ReportedOutside(results: seq<WriteResult>, ops: seq<Operation>, verdicts: seq<Verdict>,
                                           k: nat)
    requires |ops| == |verdicts| && DistinctIndexes(ops, |results|) && k < |results| && !Touches(ops, k)
    ensures Reported(results, ops, verdicts)[k] == results[k]
  {
    if ops != [] {
      TouchesLast(ops, k);
      hide Touches;
      ReportedOutside(results, ops[..|ops| - 1], verdicts[..|ops| - 1], k);
    }
  }

  lemma {:induction false} ReportedInside(results: seq<WriteResult>, ops: seq<Operation>, verdicts: seq<Verdict>,
                                          i: nat)
    requires |ops| == |verdicts| && DistinctIndexes(ops, |results|) && i < |ops|
    ensures Reported(results, ops, verdicts)[ops[i].index] == Shown(verdicts[i])
  {
    var n := |ops| - 1;
    if i < n {
      ReportedInside(results, ops[..n], verdicts[..n], i);
    }
  }

  lemma ReportedAt(results: seq<WriteResult>, ops: seq<Operation>, verdicts: seq<Verdict>)
    requires |ops| == |verdicts| && DistinctIndexes(ops, |results|)
    ensures SameOutside(ops, results, Reported(results, ops, verdicts))
    ensures forall i :: 0 <= i < |ops| ==> Reported(results, ops, verdicts)[ops[i].index] == Shown(verdicts[i])
  {
    hide Reported, Touches;
    forall k | 0 <= k < |results| && !Touches(ops, k) ensures Reported(results, ops, verdicts)[k] == results[k] {
      ReportedOutside(results, ops, verdicts, k);
    }
    forall i | 0 <= i < |ops| ensures Reported(results, ops, verdicts)[ops[i].index] == Shown(verdicts[i]) {
      ReportedInside(results, ops, verdicts, i);
    }
  }

  // ---------------------------------------------------------------------
  // Folding for one caller
  // ---------------------------------------------------------------------

  /** A fold in progress: the snapshot, the speculative state, and the commit. */
  datatype Progress = Progress(current: ReadResult, included: bool, commit: Commit, verdicts: seq<Verdict>)

  /** `prepareWriteGroup` on the operations so far. */
  function Fold(lua: Lua, ops: seq<Operation>, stored: ReadResult): (p: Progress)
    ensures |p.verdicts| == |ops|
  {
    if ops == [] then Progress(stored, false, NoCommit, [])
    else
      var p := Fold(lua, ops[..|ops| - 1], stored);
      var (verdict, merged) := Prepare(lua, ops[|ops| - 1], p.current);
      if verdict.Refused? then p.(verdicts := p.verdicts + [verdict])
      else Progress(Advance(p.current, merged.document), true,
                    if p.included then p.commit.(document := merged.document) else merged,
                    p.verdicts + [verdict])
  }

  /** What a fold delivers.  The candidate is the sequential run of exactly the
      operations left without a failure, and its precondition describes the
      snapshot, never a speculative state. */
  ghost predicate Delivers(lua: Lua, ops: seq<Operation>, stored: ReadResult, p: Progress)
    requires |p.verdicts| == |ops|
  {
    && (p.included <==> exists i :: 0 <= i < |ops| && p.verdicts[i].Wrote?)
    && (!stored.Readable() ==> !p.included)
    && (!p.included ==> p.current == stored)
    && (p.included ==>
          && p.current == Found(p.commit.document, if stored.Found? then stored.revision else "")
          && p.commit.precondition == Describes(stored))
    && (stored.Readable() ==>
          Replay(lua, ops, Flags(p.verdicts), Contents(stored)) == Some(Contents(p.current)))
  }

  lemma FlagsSplit(a: seq<Verdict>, b: seq<Verdict>)
    ensures Flags(a + b) == Flags(a) + Flags(b)
  {
  }

  lemma {:induction false} FoldDelivers(lua: Lua, ops: seq<Operation>, stored: ReadResult)
    ensures Delivers(lua, ops, stored, Fold(lua, ops, stored))
  {
    if ops != [] {
      var n := |ops| - 1;
      FoldDelivers(lua, ops[..n], stored);
      var p := Fold(lua, ops[..n], stored);
      var q := Fold(lua, ops, stored);
      FlagsSplit(p.verdicts, [q.verdicts[n]]);
      assert Flags(q.verdicts)[..n] == Flags(p.verdicts);
      assert forall i :: 0 <= i < n ==> q.verdicts[i] == p.verdicts[i];
    }
  }

  /** Every verdict is the one the operation meets on the record that its kept
      predecessors leave behind. */
  lemma {:induction false} FoldVerdict(lua: Lua, ops: seq<Operation>, stored: ReadResult, i: nat)
    requires i < |ops| && stored.Readable()
    ensures var v := Fold(lua, ops, stored).verdicts;
            var before := Replay(lua, ops[..i], Flags(v)[..i], Contents(stored));
            before.Some? && v[i] == Execute(lua, ops[i], before.value)
    decreases |ops|
  {
    hide Replay, Execute;
    var n := |ops| - 1;
    var p := Fold(lua, ops[..n], stored);
    var v := Fold(lua, ops, stored).verdicts;
    if i < n {
      FoldVerdict(lua, ops[..n], stored, i);
      assert ops[..n][..i] == ops[..i];
      assert Flags(v)[..i] == Flags(p.verdicts)[..i];
    } else {
      FoldDelivers(lua, ops[..n], stored);
      assert Flags(v)[..n] == Flags(p.verdicts);
    }
  }

  /** `prepareWriteGroup`. */
  method PrepareWriteGroup(ops: seq<Operation>, stored: ReadResult, lua: Lua, results: array<WriteResult>)
    returns (included: bool, commit: Commit)
    requires forall i :: 0 <= i < |ops| ==> ops[i].index < results.Length
    modifies results
    ensures var p := Fold(lua, ops, stored);
            && included == p.included && commit == p.commit
            && results[..] == Reported(old(results[..]), ops, p.verdicts)
  {
    hide Execute, Describes, Unread;
    included, commit := false, NoCommit;
    var current := stored;
    for n := 0 to |ops|
      invariant var p := Fold(lua, ops[..n], stored);
                && current == p.current && included == p.included && commit == p.commit
                && results[..] == Reported(old(results[..]), ops[..n], p.verdicts)
    {
      assert ops[..n + 1][..n] == ops[..n];
      var op := ops[n];
      var (verdict, merged) := Prepare(lua, op, current);
      assert (Fold(lua, ops[..n], stored).verdicts + [verdict])[..n] == Fold(lua, ops[..n], stored).verdicts;
      results[op.index] := Shown(verdict);
      if verdict.Refused? {
        continue;
      }
      if !included {
        commit := merged;
        included := true;
      } else {
        commit := commit.(document := merged.document);
      }
      current := Advance(current, merged.document);
    }
    assert ops[..|ops|] == ops;
  }

  // ---------------------------------------------------------------------
  // Folding for several callers, each with its own byte budgets
  // ---------------------------------------------------------------------

  datatype Budget = Budget(remaining: int, maximum: int)

  const Overhead := 128

  predicate Affordable(b: Budget, size: nat) {
    b.remaining >= Overhead && size <= b.remaining - Overhead
  }

  function Spend(b: Budget, size: nat): Budget {
    b.(remaining := b.remaining - size - Overhead)
  }

  function OverBudget(b: Budget, size: nat): Verdict {
    RefusedBy(Failure(ResourceExhausted, size <= b.maximum - Overhead, OfBudget))
  }

  datatype Batch = Batch(fold: Progress, inputs: seq<Budget>, outputs: seq<Budget>)

  function RolledBack(v: Verdict, n: nat): seq<Verdict> { seq(n, _ => v) }

  /** The operations of one caller, folded onto what earlier callers left. */
  function FoldPart(lua: Lua, part: seq<Operation>, owner: nat, b: Batch): (r: Batch)
    requires owner < |b.inputs| && owner < |b.outputs|
    ensures |r.inputs| == |b.inputs| && |r.outputs| == |b.outputs|
    ensures |r.fold.verdicts| == |b.fold.verdicts| + |part|
  {
    var p := b.fold;
    var input := b.inputs[owner];
    var size := if p.current.Found? then |p.current.document.payload| else 0;
    if p.current.Found? && !Affordable(input, size) then
      b.(fold := p.(verdicts := p.verdicts + RolledBack(OverBudget(input, size), |part|)))
    else
      var charged := if p.current.Found? then b.(inputs := b.inputs[owner := Spend(input, size)]) else b;
      var q := Fold(lua, part, p.current);
      var output := b.outputs[owner];
      if !q.included then charged.(fold := p.(verdicts := p.verdicts + q.verdicts))
      else if !Affordable(output, |q.commit.document.payload|) then
        charged.(fold := p.(verdicts := p.verdicts
          + RolledBack(OverBudget(output, |q.commit.document.payload|), |part|)))
      else
        Batch(Joined(p, q), charged.inputs, b.outputs[owner := Spend(output, |q.commit.document.payload|)])
  }

  /** The end of the caller's part that begins at `start`. */
  function PartEnd(ops: seq<Operation>, owners: seq<nat>, start: nat, end: nat): (r: nat)
    requires start < end <= |ops| && forall i :: 0 <= i < |ops| ==> ops[i].index < |owners|
    ensures end <= r <= |ops|
    ensures forall i :: end <= i < r ==> owners[ops[i].index] == owners[ops[start].index]
    ensures r < |ops| ==> owners[ops[r].index] != owners[ops[start].index]
    decreases |ops| - end
  {
    if end < |ops| && owners[ops[end].index] == owners[ops[start].index]
    then PartEnd(ops, owners, start, end + 1) else end
  }

  ghost predicate Owned(ops: seq<Operation>, owners: seq<nat>, callers: nat) {
    forall i :: 0 <= i < |ops| ==> ops[i].index < |owners| && owners[ops[i].index] < callers
  }

  /** `prepareBatchedWriteGroup` from operation `start` on. */
  function FoldParts(lua: Lua, ops: seq<Operation>, owners: seq<nat>, start: nat, b: Batch): (r: Batch)
    requires start <= |ops| && |b.inputs| == |b.outputs| && Owned(ops, owners, |b.inputs|)
    ensures |r.fold.verdicts| == |b.fold.verdicts| + |ops| - start
    ensures |r.inputs| == |r.outputs| == |b.inputs|
    decreases |ops| - start
  {
    if start == |ops| then b
    else
      var end := PartEnd(ops, owners, start, start + 1);
      FoldParts(lua, ops, owners, end, FoldPart(lua, ops[start..end], owners[ops[start].index], b))
  }

  lemma ExtendRefused(
      lua: Lua, done: seq<Operation>, part: seq<Operation>, stored: ReadResult, p: Progress, added: seq<Verdict>)
    requires |p.verdicts| == |done| && Delivers(lua, done, stored, p)
    requires |added| == |part| && forall i :: 0 <= i < |added| ==> added[i].Refused?
    ensures Delivers(lua, done + part, stored, p.(verdicts := p.verdicts + added))
  {
    var r := p.(verdicts := p.verdicts + added);
    FlagsSplit(p.verdicts, added);
    assert forall i :: 0 <= i < |done| ==> r.verdicts[i] == p.verdicts[i];
    if stored.Readable() {
      ReplayConcat(lua, done, part, Flags(p.verdicts), Flags(added), Contents(stored));
      ReplayNothing(lua, part, Flags(added), Contents(p.current));
    }
  }

  /** The fold of a caller's part on top of the fold `p` of earlier parts. */
  function Joined(p: Progress, q: Progress): Progress {
    Progress(Advance(p.current, q.commit.document), true,
             if p.included then p.commit.(document := q.commit.document) else q.commit,
             p.verdicts + q.verdicts)
  }

  lemma ExtendAccepted(lua: Lua, done: seq<Operation>, part: seq<Operation>, stored: ReadResult, p: Progress,
                       q: Progress)
    requires |p.verdicts| == |done| && Delivers(lua, done, stored, p)
    requires |q.verdicts| == |part| && Delivers(lua, part, p.current, q) && q.included
    ensures Delivers(lua, done + part, stored, Joined(p, q))
  {
    var r := Joined(p, q);
    FlagsSplit(p.verdicts, q.verdicts);
    var k :| 0 <= k < |part| && q.verdicts[k].Wrote?;
    assert r.verdicts[|done| + k].Wrote?;
    if stored.Readable() {
      ReplayConcat(lua, done, part, Flags(p.verdicts), Flags(q.verdicts), Contents(stored));
    }
  }

  lemma PartDelivers(lua: Lua, done: seq<Operation>, part: seq<Operation>, owner: nat, stored: ReadResult, b: Batch)
    requires owner < |b.inputs| && owner < |b.outputs| && |b.fold.verdicts| == |done|
    requires Delivers(lua, done, stored, b.fold)
    ensures Delivers(lua, done + part, stored, FoldPart(lua, part, owner, b).fold)
  {
    var q := Fold(lua, part, b.fold.current);
    FoldDelivers(lua, part, b.fold.current);
    var r := FoldPart(lua, part, owner, b).fold;
    var added := r.verdicts[|done|..];
    assert r.verdicts == b.fold.verdicts + added;
    if r == b.fold.(verdicts := b.fold.verdicts + added) && forall i :: 0 <= i < |added| ==> added[i].Refused? {
      ExtendRefused(lua, done, part, stored, b.fold, added);
    } else {
      ExtendAccepted(lua, done, part, stored, b.fold, q);
    }
  }

  lemma {:induction false} PartsDeliver(
      lua: Lua, ops: seq<Operation>, owners: seq<nat>, start: nat, stored: ReadResult, b: Batch)
    requires start <= |ops| && |b.inputs| == |b.outputs| && Owned(ops, owners, |b.inputs|)
    requires |b.fold.verdicts| == start && Delivers(lua, ops[..start], stored, b.fold)
    ensures Delivers(lua, ops, stored, FoldParts(lua, ops, owners, start, b).fold)
    decreases |ops| - start
  {
    hide Delivers, FoldPart;
    if start == |ops| {
      assert ops[..start] == ops;
    } else {
      var end := PartEnd(ops, owners, start, start + 1);
      PartDelivers(lua, ops[..start], ops[start..end], owners[ops[start].index], stored, b);
      assert ops[..start] + ops[start..end] == ops[..end];
      PartsDeliver(lua, ops, owners, end, stored, FoldPart(lua, ops[start..end], owners[ops[start].index], b));
    }
  }

  function NewBatch(stored: ReadResult, inputs: seq<Budget>, outputs: seq<Budget>): Batch {
    Batch(Progress(stored, false, NoCommit, []), inputs, outputs)
  }

  /** The main result for a batch: whatever the snapshot, the operations, the
      callers and their budgets, the candidate is the sequential run of
      exactly the operations left without a failure. */
  lemma BatchedFoldIsSequential(
      lua: Lua, ops: seq<Operation>, owners: seq<nat>, stored: ReadResult, inputs: seq<Budget>, outputs: seq<Budget>)
    requires |inputs| == |outputs| && Owned(ops, owners, |inputs|)
    ensures Delivers(lua, ops, stored, FoldParts(lua, ops, owners, 0, NewBatch(stored, inputs, outputs)).fold)
  {
    PartsDeliver(lua, ops, owners, 0, stored, NewBatch(stored, inputs, outputs));
  }

  // ---------------------------------------------------------------------
  // Roll back of a whole part
  // ---------------------------------------------------------------------

  predicate ByBudget(v: Verdict) { v.Refused? && v.failure.cause == OfBudget }

  lemma {:induction false} FoldNotByBudget(lua: Lua, ops: seq<Operation>, stored: ReadResult)
    ensures forall i :: 0 <= i < |ops| ==> !ByBudget(Fold(lua, ops, stored).verdicts[i])
  {
    if ops != [] {
      FoldNotByBudget(lua, ops[..|ops| - 1], stored);
    }
  }

  /** A part is refused for its budget as a whole, or not at all. */
  lemma PartWhole(lua: Lua, part: seq<Operation>, owner: nat, b: Batch)
    requires owner < |b.inputs| && owner < |b.outputs|
    ensures var r := FoldPart(lua, part, owner, b).fold;
            var added := r.verdicts[|b.fold.verdicts|..];
            && b.fold.verdicts <= r.verdicts
            && ((forall i :: 0 <= i < |part| ==> ByBudget(added[i]))
                || (added == Fold(lua, part, b.fold.current).verdicts
                    && forall i :: 0 <= i < |part| ==> !ByBudget(added[i])))
  {
    hide Fold, Execute;
    FoldNotByBudget(lua, part, b.fold.current);
  }

  lemma {:induction false} PartsPrefix(lua: Lua, ops: seq<Operation>, owners: seq<nat>, start: nat, b: Batch)
    requires start <= |ops| && |b.inputs| == |b.outputs| && Owned(ops, owners, |b.inputs|)
    ensures b.fold.verdicts <= FoldParts(lua, ops, owners, start, b).fold.verdicts
    decreases |ops| - start
  {
    if start < |ops| {
      var end := PartEnd(ops, owners, start, start + 1);
      var r := FoldPart(lua, ops[start..end], owners[ops[start].index], b);
      PartWhole(lua, ops[start..end], owners[ops[start].index], b);
      PartsPrefix(lua, ops, owners, end, r);
    }
  }

  /** Neighbouring operations of one caller are refused for the caller's budget
      together: no part of a caller survives its budget in pieces. */
  lemma {:induction false} RolledBackWhole(
      lua: Lua, ops: seq<Operation>, owners: seq<nat>, start: nat, b: Batch, i: nat)
    requires start <= i && i + 1 < |ops| && |b.inputs| == |b.outputs| && Owned(ops, owners, |b.inputs|)
    requires |b.fold.verdicts| == start
    requires owners[ops[i].index] == owners[ops[i + 1].index]
    ensures var v := FoldParts(lua, ops, owners, start, b).fold.verdicts;
            ByBudget(v[i]) <==> ByBudget(v[i + 1])
    decreases |ops| - start
  {
    hide FoldPart, Fold, ByBudget;
    var end := PartEnd(ops, owners, start, start + 1);
    var r := FoldPart(lua, ops[start..end], owners[ops[start].index], b);
    if i >= end {
      RolledBackWhole(lua, ops, owners, end, r, i);
    } else {
      PartWhole(lua, ops[start..end], owners[ops[start].index], b);
      PartsPrefix(lua, ops, owners, end, r);
      var v := FoldParts(lua, ops, owners, start, b).fold.verdicts;
      var added := r.fold.verdicts[start..];
      assert i + 1 < end;
      assert v[i] == added[i - start] && v[i + 1] == added[i + 1 - start];
    }
  }

  // ---------------------------------------------------------------------
  // Every verdict explained
  // ---------------------------------------------------------------------

  /** Operation `i` gets the verdict that it meets on the record its kept
      predecessors leave behind, or is refused for its caller's budget. */
  ghost predicate Fair(lua: Lua, ops: seq<Operation>, verdicts: seq<Verdict>, base: Option<Document>, i: nat)
    requires |verdicts| == |ops| && i < |ops|
  {
    var before := Replay(lua, ops[..i], Flags(verdicts)[..i], base);
    before.Some? && (ByBudget(verdicts[i]) || verdicts[i] == Execute(lua, ops[i], before.value))
  }

  ghost predicate AllFair(lua: Lua, ops: seq<Operation>, verdicts: seq<Verdict>, base: Option<Document>)
    requires |verdicts| == |ops|
  {
    forall i :: 0 <= i < |ops| ==> Fair(lua, ops, verdicts, base, i)
  }

  lemma FoldFair(lua: Lua, ops: seq<Operation>, stored: ReadResult)
    requires stored.Readable()
    ensures AllFair(lua, ops, Fold(lua, ops, stored).verdicts, Contents(stored))
  {
    hide Fold, Replay, Execute, Flags;
    forall i | 0 <= i < |ops| ensures Fair(lua, ops, Fold(lua, ops, stored).verdicts, Contents(stored), i) {
      FoldVerdict(lua, ops, stored, i);
    }
  }

  /** A verdict of a caller's part, met on what the earlier parts left. */
  lemma FairAfter(lua: Lua, done: seq<Operation>, part: seq<Operation>, first: seq<Verdict>, added: seq<Verdict>,
                  base: Option<Document>, current: Option<Document>, m: nat)
    requires |first| == |done| && |added| == |part| && m < |part|
    requires Replay(lua, done, Flags(first), base) == Some(current) && Fair(lua, part, added, current, m)
    ensures Fair(lua, done + part, first + added, base, |done| + m)
  {
    hide Execute;
    var i := |done| + m;
    FlagsSplit(first, added);
    assert (done + part)[..i] == done + part[..m];
    assert Flags(first + added)[..i] == Flags(first) + Flags(added)[..m];
    ReplayConcat(lua, done, part[..m], Flags(first), Flags(added)[..m], base);
  }

  lemma FairBefore(lua: Lua, done: seq<Operation>, part: seq<Operation>, first: seq<Verdict>, added: seq<Verdict>,
                   base: Option<Document>, i: nat)
    requires |first| == |done| && |added| == |part| && i < |done| && Fair(lua, done, first, base, i)
    ensures Fair(lua, done + part, first + added, base, i)
  {
    hide Execute, Replay;
    FlagsSplit(first, added);
    assert (done + part)[..i] == done[..i];
    assert Flags(first + added)[..i] == Flags(first)[..i];
  }

  /** A part that is refused for its budget is refused fairly. */
  lemma RefusedFair(lua: Lua, part: seq<Operation>, added: seq<Verdict>, current: Option<Document>)
    requires |added| == |part| && forall i :: 0 <= i < |part| ==> ByBudget(added[i])
    ensures AllFair(lua, part, added, current)
  {
    forall i | 0 <= i < |part| ensures Fair(lua, part, added, current, i) {
      ReplayNothing(lua, part[..i], Flags(added)[..i], current);
    }
  }

  lemma PartFair(lua: Lua, done: seq<Operation>, part: seq<Operation>, owner: nat, stored: ReadResult, b: Batch)
    requires owner < |b.inputs| && owner < |b.outputs| && |b.fold.verdicts| == |done| && stored.Readable()
    requires Delivers(lua, done, stored, b.fold) && AllFair(lua, done, b.fold.verdicts, Contents(stored))
    ensures AllFair(lua, done + part, FoldPart(lua, part, owner, b).fold.verdicts, Contents(stored))
  {
    hide FoldPart, Fold, Execute, Replay, Fair, Flags, Describes;
    var r := FoldPart(lua, part, owner, b).fold;
    var first, added := b.fold.verdicts, r.verdicts[|done|..];
    PartWhole(lua, part, owner, b);
    assert r.verdicts == first + added;
    assert b.fold.current.Readable();
    if forall i :: 0 <= i < |part| ==> ByBudget(added[i]) {
      RefusedFair(lua, part, added, Contents(b.fold.current));
    } else {
      FoldFair(lua, part, b.fold.current);
    }
    forall i | 0 <= i < |done + part| ensures Fair(lua, done + part, first + added, Contents(stored), i) {
      if i < |done| {
        FairBefore(lua, done, part, first, added, Contents(stored), i);
      } else {
        FairAfter(lua, done, part, first, added, Contents(stored), Contents(b.fold.current), i - |done|);
      }
    }
  }

  /** The fold of several callers explains every verdict. */
  lemma {:induction false} PartsFair(
      lua: Lua, ops: seq<Operation>, owners: seq<nat>, start: nat, stored: ReadResult, b: Batch)
    requires start <= |ops| && |b.inputs| == |b.outputs| && Owned(ops, owners, |b.inputs|) && stored.Readable()
    requires |b.fold.verdicts| == start && Delivers(lua, ops[..start], stored, b.fold)
    requires AllFair(lua, ops[..start], b.fold.verdicts, Contents(stored))
    ensures AllFair(lua, ops, FoldParts(lua, ops, owners, start, b).fold.verdicts, Contents(stored))
    decreases |ops| - start
  {
    hide Delivers, FoldPart, AllFair;
    if start == |ops| {
      assert ops[..start] == ops;
    } else {
      var end := PartEnd(ops, owners, start, start + 1);
      var owner := owners[ops[start].index];
      PartDelivers(lua, ops[..start], ops[start..end], owner, stored, b);
      PartFair(lua, ops[..start], ops[start..end], owner, stored, b);
      assert ops[..start] + ops[start..end] == ops[..end];
      PartsFair(lua, ops, owners, end, stored, FoldPart(lua, ops[start..end], owner, b));
    }
  }

  // ---------------------------------------------------------------------
  // The outcome of a storage write, applied to a group's results
  // ---------------------------------------------------------------------

  datatype Stored =
    | StoredApplied(revision: Revision)
    | StoredConflict
    | StoredFailure(failure: Failure)

  /** `applyWriteResult` on a result whose failure has been cleared. */
  function Outcome(r: WriteResult, stored: Stored): WriteResult {
    match stored
    case StoredApplied(revision) => r.(status := Applied, revision := Some(revision))
    case StoredConflict =>
      r.(status := PreconditionFailed, failure := Some(Failure(PreconditionFailure, false, OfStorage)))
    case StoredFailure(failure) => r.(status := FailureStatus(failure.code), failure := Some(failure))
  }

  /** A speculative failure becomes final when its chain commits; any other
      storage outcome replaces it. */
  function Finished(r: WriteResult, stored: Stored): WriteResult {
    if stored.StoredApplied? && r.failure != None then r.(document := None)
    else Outcome(r.(document := None, failure := None), stored)
  }

  function Finish(results: seq<WriteResult>, ops: seq<Operation>, stored: Stored): (r: seq<WriteResult>)
    requires forall i :: 0 <= i < |ops| ==> ops[i].index < |results|
    ensures |r| == |results|
  {
    if ops == [] then results
    else
      var n := |ops| - 1;
      var r := Finish(results, ops[..n], stored);
      r[ops[n].index := Finished(r[ops[n].index], stored)]
  }

  lemma {:induction false} FinishOutside(results: seq<WriteResult>, ops: seq<Operation>, stored: Stored, k: nat)
    requires DistinctIndexes(ops, |results|) && k < |results| && !Touches(ops, k)
    ensures Finish(results, ops, stored)[k] == results[k]
  {
    if ops != [] {
      TouchesLast(ops, k);
      hide Touches, Finished;
      FinishOutside(results, ops[..|ops| - 1], stored, k);
    }
  }

  lemma {:induction false} FinishInside(results: seq<WriteResult>, ops: seq<Operation>, stored: Stored, i: nat)
    requires DistinctIndexes(ops, |results|) && i < |ops|
    ensures Finish(results, ops, stored)[ops[i].index] == Finished(results[ops[i].index], stored)
  {
    var n := |ops| - 1;
    if i < n {
      hide Finished;
      FinishInside(results, ops[..n], stored, i);
    } else {
      assert !Touches(ops[..n], ops[n].index);
      FinishOutside(results, ops[..n], stored, ops[n].index);
    }
  }

  lemma FinishAt(results: seq<WriteResult>, ops: seq<Operation>, stored: Stored)
    requires DistinctIndexes(ops, |results|)
    ensures SameOutside(ops, results, Finish(results, ops, stored))
    ensures forall i :: 0 <= i < |ops| ==>
              Finish(results, ops, stored)[ops[i].index] == Finished(results[ops[i].index], stored)
  {
    hide Finish, Touches, Finished;
    forall k | 0 <= k < |results| && !Touches(ops, k) ensures Finish(results, ops, stored)[k] == results[k] {
      FinishOutside(results, ops, stored, k);
    }
    forall i | 0 <= i < |ops| ensures Finish(results, ops, stored)[ops[i].index]
      == Finished(results[ops[i].index], stored) {
      FinishInside(results, ops, stored, i);
    }
  }

  /** `applyWriteGroupResult`. */
  method ApplyWriteGroupResult(ops: seq<Operation>, results: array<WriteResult>, stored: Stored)
    requires forall i :: 0 <= i < |ops| ==> ops[i].index < results.Length
    modifies results
    ensures results[..] == Finish(old(results[..]), ops, stored)
  {
    for n := 0 to |ops|
      invariant results[..] == Finish(old(results[..]), ops[..n], stored)
    {
      assert ops[..n + 1][..n] == ops[..n];
      var k := ops[n].index;
      var r := results[k].(document := None);
      if !(stored.StoredApplied? && r.failure != None) {
        r := Outcome(r.(failure := None), stored);
      }
      results[k] := r;
    }
    assert ops[..|ops|] == ops;
  }

  /** Rolling back a part overwrites whatever its evaluation had reported. */
  lemma RollBackReports(results: seq<WriteResult>, part: seq<Operation>, failure: Failure)
    requires DistinctIndexes(part, |results|)
    requires forall i :: 0 <= i < |part| ==> results[part[i].index].revision == None
    ensures Finish(results, part, StoredFailure(failure))
         == Reported(results, part, RolledBack(RefusedBy(failure), |part|))
  {
    hide Finish, Reported;
    var v := RolledBack(RefusedBy(failure), |part|);
    FinishAt(results, part, StoredFailure(failure));
    ReportedAt(results, part, v);
    SameResults(part, results, Finish(results, part, StoredFailure(failure)), Reported(results, part, v));
  }

  lemma RollBackTwice(results: seq<WriteResult>, part: seq<Operation>, verdicts: seq<Verdict>, failure: Failure)
    requires DistinctIndexes(part, |results|) && |verdicts| == |part|
    ensures Finish(Reported(results, part, verdicts), part, StoredFailure(failure))
         == Reported(results, part, RolledBack(RefusedBy(failure), |part|))
  {
    hide Finish, Reported;
    var r := Reported(results, part, verdicts);
    assert forall i :: 0 <= i < |part| ==> r[part[i].index].revision == None by {
      ReportedAt(results, part, verdicts);
    }
    RollBackReports(r, part, failure);
    ReportedTwice(results, part, verdicts, RolledBack(RefusedBy(failure), |part|));
  }

  lemma ReportedTwice(results: seq<WriteResult>, part: seq<Operation>, v: seq<Verdict>, w: seq<Verdict>)
    requires DistinctIndexes(part, |results|) && |v| == |w| == |part|
    ensures Reported(Reported(results, part, v), part, w) == Reported(results, part, w)
  {
    hide Reported;
    var r := Reported(results, part, v);
    ReportedAt(results, part, v);
    ReportedAt(r, part, w);
    ReportedAt(results, part, w);
    SameResults(part, results, Reported(r, part, w), Reported(results, part, w));
  }

  lemma SameResults(part: seq<Operation>, base: seq<WriteResult>, a: seq<WriteResult>, b: seq<WriteResult>)
    requires |a| == |b| == |base|
    requires forall k :: 0 <= k < |base| && !Touches(part, k) ==> a[k] == base[k] == b[k]
    requires forall i :: 0 <= i < |part| ==> part[i].index < |base| && a[part[i].index] == b[part[i].index]
    ensures a == b
  {
    forall k | 0 <= k < |base| ensures a[k] == b[k] {
      if Touches(part, k) {
        var i :| 0 <= i < |part| && part[i].index == k;
      }
    }
  }

  lemma {:induction false} ReportedConcat(
      results: seq<WriteResult>, a: seq<Operation>, b: seq<Operation>, va: seq<Verdict>, vb: seq<Verdict>)
    requires |a| == |va| && |b| == |vb|
    requires forall i :: 0 <= i < |a + b| ==> (a + b)[i].index < |results|
    ensures forall i :: 0 <= i < |a| ==> a[i].index < |results|
    ensures forall i :: 0 <= i < |b| ==> b[i].index < |results|
    ensures Reported(results, a + b, va + vb) == Reported(Reported(results, a, va), b, vb)
  {
    assert forall i :: 0 <= i < |a| ==> (a + b)[i] == a[i];
    assert forall i :: 0 <= i < |b| ==> (a + b)[|a| + i] == b[i];
    if b == [] {
      assert a + b == a && va + vb == va;
    } else {
      var n := |b| - 1;
      assert (a + b)[..|a| + n] == a + b[..n];
      assert (va + vb)[..|a| + n] == va + vb[..n];
      ReportedConcat(results, a, b[..n], va, vb[..n]);
    }
  }

  /** One caller's part: evaluate it, or roll it back whole. */
  method PreparePart(
      part: seq<Operation>, owner: nat, lua: Lua, current: ReadResult, ghost b: Batch,
      results: array<WriteResult>, inputs: array<Budget>, outputs: array<Budget>)
    returns (accepted: bool, commit: Commit)
    requires DistinctIndexes(part, results.Length) && owner < inputs.Length && owner < outputs.Length
        && inputs != outputs
    requires forall i :: 0 <= i < |part| ==> results[part[i].index].revision == None
    requires b.fold.current == current && b.inputs == inputs[..] && b.outputs == outputs[..]
    modifies results, inputs, outputs
    ensures var r := FoldPart(lua, part, owner, b);
            && inputs[..] == r.inputs && outputs[..] == r.outputs
            && results[..] == Reported(old(results[..]), part, r.fold.verdicts[|b.fold.verdicts|..])
            && r.fold.current == (if accepted then Advance(current, commit.document) else current)
            && r.fold.included == (b.fold.included || accepted)
            && r.fold.commit == (if !accepted then b.fold.commit
                                 else if b.fold.included then b.fold.commit.(document := commit.document) else commit)
  {
    accepted := false;
    commit := NoCommit;
    ghost var seen := |b.fold.verdicts|;
    ghost var fold := Fold(lua, part, current);
    assert (b.fold.verdicts + fold.verdicts)[seen..] == fold.verdicts;
    if current.Found? {
      var size := |current.document.payload|;
      if !Affordable(inputs[owner], size) {
        var refused := OverBudget(inputs[owner], size);
        RollBackReports(results[..], part, refused.failure);
        ApplyWriteGroupResult(part, results, StoredFailure(refused.failure));
        assert (b.fold.verdicts + RolledBack(refused, |part|))[seen..] == RolledBack(refused, |part|);
        return;
      }
      inputs[owner] := Spend(inputs[owner], size);
    }
    var included;
    included, commit := PrepareWriteGroup(part, current, lua, results);
    if !included {
      return;
    }
    var size := |commit.document.payload|;
    if !Affordable(outputs[owner], size) {
      var refused := OverBudget(outputs[owner], size);
      RollBackTwice(old(results[..]), part, fold.verdicts, refused.failure);
      ApplyWriteGroupResult(part, results, StoredFailure(refused.failure));
      assert (b.fold.verdicts + RolledBack(refused, |part|))[seen..] == RolledBack(refused, |part|);
      return;
    }
    outputs[owner] := Spend(outputs[owner], size);
    accepted := true;
  }

  lemma FoldPartsStep(lua: Lua, ops: seq<Operation>, owners: seq<nat>, start: nat, b: Batch)
    requires start <= |ops| && |b.inputs| == |b.outputs| && Owned(ops, owners, |b.inputs|)
    ensures start == |ops| ==> FoldParts(lua, ops, owners, start, b) == b
    ensures start < |ops| ==>
            var end := PartEnd(ops, owners, start, start + 1);
            FoldParts(lua, ops, owners, start, b)
            == FoldParts(lua, ops, owners, end, FoldPart(lua, ops[start..end], owners[ops[start].index], b))
  {
  }

  method FindPartEnd(ops: seq<Operation>, owners: seq<nat>, start: nat) returns (end: nat)
    requires start < |ops| && forall i :: 0 <= i < |ops| ==> ops[i].index < |owners|
    ensures end == PartEnd(ops, owners, start, start + 1)
  {
    end := start + 1;
    while end < |ops| && owners[ops[end].index] == owners[ops[start].index]
      invariant start < end <= |ops|
      invariant PartEnd(ops, owners, start, end) == PartEnd(ops, owners, start, start + 1)
    {
      end := end + 1;
    }
  }

  /** The body of the loop over callers: fold the part that begins at `start`. */
  method FoldNext(
      ops: seq<Operation>, owners: seq<nat>, start: nat, end: nat, lua: Lua, current: ReadResult, ghost b: Batch,
      ghost initial: seq<WriteResult>, results: array<WriteResult>, inputs: array<Budget>, outputs: array<Budget>)
    returns (accepted: bool, commit: Commit)
    requires DistinctIndexes(ops, results.Length) && inputs != outputs && inputs.Length == outputs.Length
    requires Owned(ops, owners, inputs.Length) && start < end <= |ops|
    requires |initial| == results.Length && forall i :: 0 <= i < |ops| ==> initial[ops[i].index].revision == None
    requires b.fold.current == current && b.inputs == inputs[..] && b.outputs == outputs[..]
    requires |b.fold.verdicts| == start && results[..] == Reported(initial, ops[..start], b.fold.verdicts)
    modifies results, inputs, outputs
    ensures var r := FoldPart(lua, ops[start..end], owners[ops[start].index], b);
            && inputs[..] == r.inputs && outputs[..] == r.outputs && |r.fold.verdicts| == end
            && results[..] == Reported(initial, ops[..end], r.fold.verdicts)
            && r.fold.current == (if accepted then Advance(current, commit.document) else current)
            && r.fold.included == (b.fold.included || accepted)
            && r.fold.commit == (if !accepted then b.fold.commit
                                 else if b.fold.included then b.fold.commit.(document := commit.document) else commit)
  {
    var part := ops[start..end];
    var owner := owners[ops[start].index];
    ghost var next := FoldPart(lua, part, owner, b);
    assert b.fold.verdicts <= next.fold.verdicts by { PartWhole(lua, part, owner, b); }
    hide FoldPart, Fold, Execute, Reported, DistinctIndexes;
    PartReported(initial, ops, start, end, b.fold.verdicts, next.fold.verdicts);
    PartUntouched(initial, ops, b.fold.verdicts, start, end);
    accepted, commit := PreparePart(part, owner, lua, current, b, results, inputs, outputs);
  }

  /** `prepareBatchedWriteGroup`. */
  method PrepareBatchedWriteGroup(
      ops: seq<Operation>, owners: seq<nat>, stored: ReadResult, lua: Lua,
      results: array<WriteResult>, inputs: array<Budget>, outputs: array<Budget>)
    returns (included: bool, commit: Commit)
    requires DistinctIndexes(ops, results.Length) && inputs != outputs && inputs.Length == outputs.Length
    requires Owned(ops, owners, inputs.Length)
    requires forall i :: 0 <= i < |ops| ==> results[ops[i].index].revision == None
    modifies results, inputs, outputs
    ensures var b := FoldParts(lua, ops, owners, 0, NewBatch(stored, old(inputs[..]), old(outputs[..])));
            && included == b.fold.included && commit == b.fold.commit
            && inputs[..] == b.inputs && outputs[..] == b.outputs
            && results[..] == Reported(old(results[..]), ops, b.fold.verdicts)
  {
    var current := stored;
    included, commit := false, NoCommit;
    var start := 0;
    ghost var initial := results[..];
    ghost var b := NewBatch(stored, inputs[..], outputs[..]);
    ghost var whole := FoldParts(lua, ops, owners, 0, b);
    assert results[..] == Reported(initial, ops[..0], []);
    hide FoldPart, FoldParts, Reported, PartEnd, DistinctIndexes;
    while start < |ops|
      invariant start <= |ops| && |b.fold.verdicts| == start
      invariant b.fold.current == current && b.fold.included == included && b.fold.commit == commit
      invariant b.inputs == inputs[..] && b.outputs == outputs[..]
      invariant FoldParts(lua, ops, owners, start, b) == whole
      invariant results[..] == Reported(initial, ops[..start], b.fold.verdicts)
    {
      var end := FindPartEnd(ops, owners, start);
      FoldPartsStep(lua, ops, owners, start, b);
      var accepted, prepared :=
        FoldNext(ops, owners, start, end, lua, current, b, initial, results, inputs, outputs);
      b := FoldPart(lua, ops[start..end], owners[ops[start].index], b);
      start := end;
      if accepted {
        commit := if included then commit.(document := prepared.document) else prepared;
        included := true;
        current := Advance(current, prepared.document);
      }
    }
    assert ops[..start] == ops;
    FoldPartsStep(lua, ops, owners, start, b);
  }

  lemma PartReported(
      results: seq<WriteResult>, ops: seq<Operation>, start: nat, end: nat, before: seq<Verdict>, after: seq<Verdict>)
    requires start <= end <= |ops| && forall i :: 0 <= i < |ops| ==> ops[i].index < |results|
    requires |before| == start && |after| == end && before <= after
    ensures Reported(Reported(results, ops[..start], before), ops[start..end], after[start..])
         == Reported(results, ops[..end], after)
  {
    assert ops[..start] + ops[start..end] == ops[..end];
    assert before + after[start..] == after;
    ReportedConcat(results, ops[..start], ops[start..end], before, after[start..]);
  }

  /** Parts that have not been evaluated still have clean results. */
  lemma PartUntouched(results: seq<WriteResult>, ops: seq<Operation>, verdicts: seq<Verdict>, start: nat, end: nat)
    requires DistinctIndexes(ops, |results|) && start <= end <= |ops| && |verdicts| == start
    requires forall i :: 0 <= i < |ops| ==> results[ops[i].index].revision == None
    ensures DistinctIndexes(ops[start..end], |results|)
    ensures var part := ops[start..end];
            forall i :: 0 <= i < |part| ==> Reported(results, ops[..start], verdicts)[part[i].index].revision == None
  {
    ReportedAt(results, ops[..start], verdicts);
    var r := Reported(results, ops[..start], verdicts);
    forall i | start <= i < end ensures r[ops[i].index] == results[ops[i].index] {
      assert !Touches(ops[..start], ops[i].index);
    }
  }
}
