/** The conditional writes that one record has seen during an execution, attempt
    by attempt. */
module WriteTries {
  import opened ConditionalWrites

  /** The attempts that wrote to record `key`, in order. */
  function Tries(log: seq<Event>, key: nat): seq<nat> {
    if log == [] then []
    else
      var e := log[|log| - 1];
      Tries(log[..|log| - 1], key) + (if e.key == key then [e.attempt] else [])
  }

  /** Every attempt so far wrote once to record `key`. */
  ghost predicate Tried(log: seq<Event>, key: nat) {
    forall a :: 0 <= a < |Tries(log, key)| ==> Tries(log, key)[a] == a
  }

  /** Every write to record `key` was refused by its precondition. */
  ghost predicate NothingWritten(log: seq<Event>, key: nat) {
    forall j :: 0 <= j < |log| && log[j].key == key ==> log[j].outcome.StoredConflict?
  }

  /** The event at `j` is the only write of attempt `a` to record `key`. */
  ghost predicate OneTry(log: seq<Event>, key: nat, a: nat, j: nat) {
    && j < |log| && log[j].key == key && log[j].attempt == a
    && (forall i :: 0 <= i < |log| && log[i].key == key && log[i].attempt == a ==> i == j)
  }

  ghost predicate NoTry(log: seq<Event>, key: nat, a: nat) {
    forall i :: 0 <= i < |log| && log[i].key == key ==> log[i].attempt != a
  }

  /** Attempt `a` wrote to record `key` once, and its precondition failed. */
  ghost predicate ConflictOnce(log: seq<Event>, key: nat, a: nat) {
    exists j: nat :: OneTry(log, key, a, j) && log[j].outcome.StoredConflict?
  }

  /** Every one of the attempts met a conflict. */
  ghost predicate ConflictAlways(log: seq<Event>, key: nat, attempts: nat) {
    forall a :: 0 <= a < attempts ==> ConflictOnce(log, key, a)
  }

  /** A longer log whose new events are not about `key`. */
  ghost predicate Quiet(log: seq<Event>, more: seq<Event>, key: nat) {
    |log| <= |more| && more[..|log|] == log && forall j :: |log| <= j < |more| ==> more[j].key != key
  }

  lemma TriesNext(log: seq<Event>, e: Event, key: nat)
    ensures Tries(log + [e], key) == Tries(log, key) + (if e.key == key then [e.attempt] else [])
  {
    assert (log + [e])[..|log|] == log;
  }

  lemma {:induction false} TriesQuiet(log: seq<Event>, more: seq<Event>, key: nat)
    requires Quiet(log, more, key)
    ensures Tries(more, key) == Tries(log, key)
    decreases |more|
  {
    if |log| == |more| {
      assert more == log;
    } else {
      var n := |more| - 1;
      assert more[..n][..|log|] == log;
      TriesQuiet(log, more[..n], key);
    }
  }

  /** An attempt that wrote did so once, and a later one has not written. */
  lemma {:induction false} TryOf(log: seq<Event>, key: nat, a: nat)
    requires Tried(log, key)
    ensures a < |Tries(log, key)| ==> exists j: nat :: OneTry(log, key, a, j)
    ensures a >= |Tries(log, key)| ==> NoTry(log, key, a)
  {
    if log != [] {
      var n := |log| - 1;
      var t := Tries(log[..n], key);
      assert forall b :: 0 <= b < |t| ==> t[b] == Tries(log, key)[b];
      TryOf(log[..n], key, a);
      assert forall i :: 0 <= i < n ==> log[..n][i] == log[i];
      if a < |t| {
        var j: nat :| OneTry(log[..n], key, a, j);
        assert log[n].key == key ==> log[n].attempt == Tries(log, key)[|t|];
        assert OneTry(log, key, a, j);
      } else if log[n].key == key && a == |t| {
        assert log[n].attempt == Tries(log, key)[|t|];
        assert OneTry(log, key, a, n);
      } else {
        assert log[n].key == key ==> log[n].attempt == Tries(log, key)[|t|];
      }
    }
  }

  /** The attempts so far all met a conflict, when nothing was written. */
  lemma AllConflicts(log: seq<Event>, key: nat, a: nat)
    requires Tried(log, key) && NothingWritten(log, key) && a < |Tries(log, key)|
    ensures ConflictOnce(log, key, a)
  {
    TryOf(log, key, a);
    var j: nat :| OneTry(log, key, a, j);
  }

  /** An attempt that has not written, or whose write was not refused, met no
      conflict. */
  lemma NoConflict(log: seq<Event>, key: nat, a: nat)
    requires Tried(log, key) && a >= |Tries(log, key)|
    ensures !ConflictOnce(log, key, a)
  {
    TryOf(log, key, a);
  }

  lemma Successful(log: seq<Event>, key: nat, j: nat)
    requires Tried(log, key) && j < |log| && log[j].key == key && !log[j].outcome.StoredConflict?
    ensures log[j].attempt < |Tries(log, key)| && !ConflictOnce(log, key, log[j].attempt)
  {
    TryOf(log, key, log[j].attempt);
  }
}
