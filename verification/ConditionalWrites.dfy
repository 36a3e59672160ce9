/** Committing folded groups with revision checks and retries
    (internal/service/write.go), against a store that other writers share. */
module ConditionalWrites {
  import opened Options
  import opened WriteFolding

  // ---------------------------------------------------------------------
  // The store
  // ---------------------------------------------------------------------

  datatype Record = Record(document: Document, revision: Revision)

  /** One storage write: the record just before it, and its outcome. */
  datatype Event = Event(key: nat, attempt: nat, commit: Commit, before: Option<Record>, outcome: Stored)

  function DocumentOf(r: Option<Record>): Option<Document> {
    if r == None then None else Some(r.value.document)
  }

  predicate Satisfies(r: Option<Record>, p: Precondition) {
    match p
    case Always => true
    case RecordExists => r.Some?
    case RecordNotExists => r.None?
    case RevisionAbsent => r.Some? && r.value.revision == ""
    case RevisionMatches(revision) => r.Some? && r.value.revision == revision
  }

  /** What every revision of a record stands for.  A store whose records obey
      one such table never shows two documents under one revision. */
  type History = (nat, Revision) -> Document

  predicate Genuine(history: History, key: nat, r: Option<Record>) {
    r.Some? ==> r.value.document == history(key, r.value.revision)
  }

  predicate GenuineRead(history: History, key: nat, r: ReadResult) {
    r.Found? ==> r.document == history(key, r.revision)
  }

  /** A precondition that describes a snapshot and still holds means that the
      record has not changed since. */
  lemma Unchanged(history: History, key: nat, stored: ReadResult, r: Option<Record>)
    requires stored.Readable() && GenuineRead(history, key, stored) && Genuine(history, key, r)
    requires Satisfies(r, Describes(stored))
    ensures DocumentOf(r) == Contents(stored)
  {
  }

  datatype Reply = Snapshot(read: ReadResult) | WorkingSetFull

  /** A read that has not started, one whose snapshot has room, or one that is
      over. */
  datatype Turn = Unread | Holding(read: ReadResult) | Answered(reply: Reply)
  {
    predicate Deferred() { Answered? && reply.WorkingSetFull? }

    predicate Served() { Holding? || (Answered? && reply.Snapshot?) }

    function Cost(): nat { if Unread? then 2 else if Holding? then 1 else 0 }

    predicate Valid(history: History, key: nat) {
      && (Holding? ==> GenuineRead(history, key, read))
      && (Answered? && reply.Snapshot? ==> GenuineRead(history, key, reply.read))
    }
  }

  function Left(turns: seq<Turn>): nat {
    if turns == [] then 0 else Left(turns[..|turns| - 1]) + turns[|turns| - 1].Cost()
  }

  lemma {:induction false} LeftLess(turns: seq<Turn>, n: nat, next: Turn)
    requires n < |turns| && next.Cost() < turns[n].Cost()
    ensures Left(turns[n := next]) < Left(turns)
  {
    var m := |turns| - 1;
    if n < m {
      LeftLess(turns[..m], n, next);
      assert turns[n := next][..m] == turns[..m][n := next];
    } else {
      assert turns[n := next][..m] == turns[..m];
    }
  }

  /** The backend, shared with writers that the service does not see: before
      every access its records may have changed in any way that keeps the
      history. */
  class Backend {
    const history: History
    var records: map<nat, Record>
    var log: seq<Event>

    constructor (history: History)
      ensures this.history == history && Faithful() && log == []
    {
      this.history := history;
      records, log := map[], [];
    }

    predicate Faithful()
      reads this
    {
      forall a :: a in records ==> Genuine(history, a, Some(records[a]))
    }

    method Interfere()
      requires Faithful()
      modifies this`records
      ensures Faithful()
    {
      var next: map<nat, Record> := *;
      if forall a :: a in next ==> Genuine(history, a, Some(next[a])) {
        records := next;
      }
    }

    /** Read the records `keys`, in any order and with reads in flight together.
        With several callers the snapshots share a working set: a read that finds
        it full is put off, and one that its caller refuses gives its room back.
        Not every read is put off: one that is put off met the bytes of another. */
    method Read(keys: seq<nat>, shared: bool, maximum: nat) returns (failed: bool, replies: seq<Reply>)
      requires Faithful()
      modifies this`records
      ensures Faithful()
      ensures !failed ==> |replies| == |keys|
      ensures !failed ==> forall i :: 0 <= i < |keys| && replies[i].Snapshot? ==>
                GenuineRead(history, keys[i], replies[i].read)
      ensures !failed && keys != [] ==> exists i :: 0 <= i < |keys| && replies[i].Snapshot?
      ensures !failed && !shared ==> forall i :: 0 <= i < |keys| ==> replies[i].Snapshot?
    {
      failed := *;
      replies := [];
      var turns: seq<Turn> := seq(|keys|, _ => Unread);
      var remaining: int := maximum;
      while exists n :: 0 <= n < |turns| && !turns[n].Answered?
        invariant Faithful() && |turns| == |keys|
        invariant forall i :: 0 <= i < |turns| ==>
            turns[i].Valid(history, keys[i]) && (!shared ==> !turns[i].Deferred())
        invariant remaining < maximum || (exists i :: 0 <= i < |turns| && turns[i].Deferred()) ==>
                    exists i :: 0 <= i < |turns| && turns[i].Served()
        decreases Left(turns)
      {
        var n: nat :| n < |turns| && !turns[n].Answered?;
        Interfere();
        var next;
        next, remaining := Advance(keys[n], turns[n], shared, maximum, remaining);
        LeftLess(turns, n, next);
        ghost var before := turns;
        turns := turns[n := next];
        if i :| 0 <= i < |before| && before[i].Served() {
          assert turns[i].Served();
        } else if next.Served() {
          assert turns[n].Served();
        }
      }
      for n := 0 to |turns|
        invariant |replies| == n && forall i :: 0 <= i < n ==> turns[i] == Answered(replies[i])
      {
        replies := replies + [turns[n].reply];
      }
      if keys != [] {
        assert exists i :: 0 <= i < |turns| && turns[i].Served() by {
          if !turns[0].Served() {
            assert turns[0].Deferred();
          }
        }
      }
    }

    /** One step of one read: it finds its record and asks for room, or its caller
        decides about a snapshot that has room. */
    method Advance(key: nat, turn: Turn, shared: bool, maximum: nat, remaining: int) returns (next: Turn, left: int)
      requires Faithful() && !turn.Answered? && turn.Valid(history, key)
      ensures next.Valid(history, key) && next.Cost() < turn.Cost()
      ensures turn.Served() ==> next.Served()
      ensures next.Deferred() ==> shared && remaining < maximum
      ensures left < maximum ==> remaining < maximum || next.Served()
    {
      left := remaining;
      var refused: bool := *;
      if turn.Holding? && !refused {
        return Answered(Snapshot(turn.read)), left;
      }
      if turn.Unread? && !refused && key in records {
        var read := Found(records[key].document, records[key].revision);
        var size := |read.document.payload| + Overhead;
        if !shared {
          return Holding(read), left;
        } else if size <= remaining {
          return Holding(read), remaining - size;
        } else if size <= maximum {
          return Answered(WorkingSetFull), left;
        }
      } else if turn.Unread? && !refused {
        return Answered(Snapshot(NotFound)), left;
      }
      // The caller's budget, memory or the store refuses the snapshot.
      var code: FailureCode := *;
      var retryable: bool := *;
      var unsupported: bool := *;
      if shared && turn.Holding? && turn.read.Found? {
        left := remaining + |turn.read.document.payload| + Overhead;
      }
      next := Answered(Snapshot(if unsupported then Unsupported(code, retryable) else ReadFailed(code, retryable)));
    }

    ghost predicate Recorded(key: nat, attempt: nat, commit: Commit, e: Event)
    {
      && e.key == key && e.attempt == attempt && e.commit == commit
      && Genuine(history, key, e.before)
      && (e.outcome.StoredApplied? ==> Satisfies(e.before, commit.precondition))
      && (e.outcome.StoredFailure? ==> e.outcome.failure.cause == OfStorage)
    }

    /** One write: applied only if its precondition holds at that instant.  A
        reported failure leaves the record as it was or writes it. */
    method WriteOne(key: nat, attempt: nat, commit: Commit) returns (outcome: Stored)
      requires Faithful()
      modifies this
      ensures Faithful()
      ensures |log| == |old(log)| + 1 && log[..|old(log)|] == old(log)
      ensures Recorded(key, attempt, commit, log[|old(log)|]) && log[|old(log)|].outcome == outcome
    {
      Interfere();
      var before := if key in records then Some(records[key]) else None;
      var revision: Revision := *;
      var reach: bool := *;
      var report: bool := *;
      outcome := StoredConflict;
      if reach && Satisfies(before, commit.precondition) && history(key, revision) == commit.document {
        records := records[key := Record(commit.document, revision)];
        outcome := StoredApplied(revision);
      }
      if report {
        var code: FailureCode := *;
        var retryable: bool := *;
        outcome := StoredFailure(Failure(code, retryable, OfStorage));
      }
      log := log + [Event(key, attempt, commit, before, outcome)];
    }
  }
}
