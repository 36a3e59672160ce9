/** The byte allowance for documents that writes return
    (internal/service/write_return.go). */
module WriteReturns {
  import opened Options
  import opened WriteFolding

  // ---------------------------------------------------------------------
  // Sums over the operations of one caller
  // ---------------------------------------------------------------------

  /** The operations' amounts, added up for one caller. */
  function Owed(owners: seq<nat>, amounts: seq<nat>, caller: nat): nat
    requires |owners| == |amounts|
  {
    if owners == [] then 0
    else
      var n := |owners| - 1;
      Owed(owners[..n], amounts[..n], caller) + (if owners[n] == caller then amounts[n] else 0)
  }

  lemma {:induction false} OwedUpdate(owners: seq<nat>, amounts: seq<nat>, caller: nat, i: nat, amount: nat)
    requires |owners| == |amounts| && i < |owners|
    ensures Owed(owners, amounts[i := amount], caller) + (if owners[i] == caller then amounts[i] else 0)
         == Owed(owners, amounts, caller) + (if owners[i] == caller then amount else 0)
  {
    var n := |owners| - 1;
    if i == n {
      assert amounts[i := amount][..n] == amounts[..n];
    } else {
      assert amounts[i := amount][..n] == amounts[..n][i := amount];
      OwedUpdate(owners[..n], amounts[..n], caller, i, amount);
    }
  }

  lemma {:induction false} OwedZero(owners: seq<nat>, amounts: seq<nat>, caller: nat)
    requires |owners| == |amounts| && forall i :: 0 <= i < |amounts| ==> amounts[i] == 0
    ensures Owed(owners, amounts, caller) == 0
  {
    if owners != [] {
      OwedZero(owners[..|owners| - 1], amounts[..|amounts| - 1], caller);
    }
  }

  function Max(a: int, b: int): int { if a >= b then a else b }

  function Charge(document: Document): nat { |document.payload| + Overhead }

  /** What a final result keeps: its returned document and its envelope. */
  function Retained(result: WriteResult): nat {
    if result.document == None then 0 else Charge(result.document.value)
  }

  // ---------------------------------------------------------------------
  // The allowance of every caller
  // ---------------------------------------------------------------------

  /** `sizes` holds 0 for an operation without a reservation; `kept` is the
      size of the document that a settled operation returned. */
  datatype Allowances = Allowances(
    owners: seq<nat>, maximum: seq<nat>, remaining: seq<int>, sizes: seq<nat>, kept: seq<nat>)

  /** Unspent allowance, outstanding reservations and retained documents of a
      caller always make up the original allowance. */
  ghost predicate Conserved(a: Allowances) {
    && |a.remaining| == |a.maximum| && |a.sizes| == |a.kept| == |a.owners|
    && (forall i :: 0 <= i < |a.owners| ==> a.owners[i] < |a.maximum|)
    && (forall i :: 0 <= i < |a.owners| ==> a.sizes[i] == 0 || a.kept[i] == 0)
    && (forall c :: 0 <= c < |a.maximum| ==>
          && a.remaining[c] >= 0
          && a.remaining[c] + Owed(a.owners, a.sizes, c) + Owed(a.owners, a.kept, c) == a.maximum[c])
  }

  /** The bytes of the documents that the results return to one caller. */
  function Returned(owners: seq<nat>, results: seq<WriteResult>, caller: nat): nat
    requires |owners| == |results|
  {
    if owners == [] then 0
    else
      var n := |owners| - 1;
      Returned(owners[..n], results[..n], caller) + (if owners[n] == caller then Retained(results[n]) else 0)
  }

  /** The ledger holds exactly what the results return. */
  ghost predicate Ledger(results: seq<WriteResult>, kept: seq<nat>) {
    |kept| == |results| && forall j :: 0 <= j < |results| ==> kept[j] == Retained(results[j])
  }

  lemma {:induction false} LedgerSum(owners: seq<nat>, results: seq<WriteResult>, kept: seq<nat>, caller: nat)
    requires |owners| == |results| && Ledger(results, kept)
    ensures Returned(owners, results, caller) == Owed(owners, kept, caller)
  {
    if owners != [] {
      var n := |owners| - 1;
      LedgerSum(owners[..n], results[..n], kept[..n], caller);
    }
  }

  /** The documents in the results never exceed their caller's allowance. */
  lemma ReturnsBounded(a: Allowances, results: seq<WriteResult>, c: nat)
    requires Conserved(a) && |a.owners| == |results| && Ledger(results, a.kept) && c < |a.maximum|
    ensures Returned(a.owners, results, c) <= a.maximum[c]
  {
    LedgerSum(a.owners, results, a.kept, c);
    assert a.remaining[c] >= 0;
  }

  /** Raise the reservation of operation `i` to `charge`. */
  function Raised(a: Allowances, i: nat, charge: nat): Allowances
    requires i < |a.owners| && |a.sizes| == |a.owners| && a.owners[i] < |a.remaining|
  {
    var difference := Max(0, charge - a.sizes[i]);
    a.(remaining := a.remaining[a.owners[i] := a.remaining[a.owners[i]] - difference],
       sizes := a.sizes[i := Max(charge, a.sizes[i])])
  }

  lemma RaisedConserved(a: Allowances, i: nat, charge: nat)
    requires Conserved(a) && i < |a.owners| && a.kept[i] == 0
    requires charge - a.sizes[i] <= a.remaining[a.owners[i]]
    ensures Conserved(Raised(a, i, charge))
  {
    var b := Raised(a, i, charge);
    forall c | 0 <= c < |a.maximum|
      ensures b.remaining[c] >= 0 && b.remaining[c] + Owed(b.owners, b.sizes, c) + Owed(b.owners, b.kept, c)
          == b.maximum[c]
    {
      OwedUpdate(a.owners, a.sizes, c, i, b.sizes[i]);
      assert a.remaining[c] >= 0;
    }
  }

  /** Settle operation `i`, which finally retains `retained` bytes. */
  function Settled(a: Allowances, i: nat, retained: nat): Allowances
    requires i < |a.owners| && |a.sizes| == |a.owners| == |a.kept| && a.owners[i] < |a.remaining|
  {
    var unused := Max(0, a.sizes[i] - retained);
    a.(remaining := a.remaining[a.owners[i] := a.remaining[a.owners[i]] + unused],
       sizes := a.sizes[i := 0],
       kept := a.kept[i := retained])
  }

  /** What an operation may finally retain: no more than it reserved, and without
      a reservation just what was retained before. */
  predicate Due(a: Allowances, i: nat, retained: nat)
    requires i < |a.sizes| == |a.kept|
  {
    if a.sizes[i] > 0 then retained <= a.sizes[i] else retained == a.kept[i]
  }

  /** Settling keeps the balance exactly when the operation retains what is due. */
  lemma SettledConserved(a: Allowances, i: nat, retained: nat)
    requires Conserved(a) && i < |a.owners|
    ensures Conserved(Settled(a, i, retained)) <==> Due(a, i, retained)
    // Settling once more changes nothing.
    ensures Settled(Settled(a, i, retained), i, retained) == Settled(a, i, retained)
  {
    var b := Settled(a, i, retained);
    forall c | 0 <= c < |a.maximum|
      ensures b.remaining[c] >= 0
      ensures b.remaining[c] + Owed(b.owners, b.sizes, c) + Owed(b.owners, b.kept, c)
           == b.maximum[c] + (if c == a.owners[i] then Max(a.sizes[i], retained) - a.sizes[i] - a.kept[i] else 0)
    {
      OwedUpdate(a.owners, a.sizes, c, i, 0);
      OwedUpdate(a.owners, a.kept, c, i, b.kept[i]);
      assert a.remaining[c] >= 0;
    }
    if !Due(a, i, retained) {
      var c := a.owners[i];
      assert b.remaining[c] + Owed(b.owners, b.sizes, c) + Owed(b.owners, b.kept, c) != b.maximum[c];
    }
    assert b.sizes[i := 0] == b.sizes && b.remaining[a.owners[i] := b.remaining[a.owners[i]]] == b.remaining;
    assert b.kept[i := b.kept[i]] == b.kept;
  }

  // ---------------------------------------------------------------------
  // When there is room
  // ---------------------------------------------------------------------

  ghost predicate InRange(ops: seq<Operation>, count: nat) {
    forall i :: 0 <= i < |ops| ==> ops[i].index < count
  }

  /** What the operations of one caller that return a document of this size
      need beyond their reservations. */
  ghost function Need(a: Allowances, ops: seq<Operation>, charge: nat, caller: nat): nat
    requires |a.sizes| == |a.owners| && InRange(ops, |a.owners|)
  {
    if ops == [] then 0
    else
      var op := ops[|ops| - 1];
      Need(a, ops[..|ops| - 1], charge, caller)
      + (if op.returnDocument && a.owners[op.index] == caller then Max(0, charge - a.sizes[op.index]) else 0)
  }

  /** No caller's operations together need more than the caller has left. */
  ghost predicate Payable(a: Allowances, ops: seq<Operation>, charge: nat)
    requires |a.sizes| == |a.owners| && InRange(ops, |a.owners|)
  {
    forall c :: 0 <= c < |a.remaining| ==> Need(a, ops, charge, c) <= a.remaining[c]
  }

  ghost predicate Backed(ops: seq<Operation>, memory: seq<bool>)
    requires |memory| == |ops|
  {
    forall i :: 0 <= i < |ops| && ops[i].returnDocument ==> memory[i]
  }

  /** `remaining` is what is left after the needs of `ops`. */
  ghost predicate Taken(a: Allowances, ops: seq<Operation>, charge: nat, remaining: seq<int>)
    requires |a.sizes| == |a.owners| && InRange(ops, |a.owners|)
  {
    |remaining| == |a.remaining|
    && forall c :: 0 <= c < |remaining| ==> remaining[c] + Need(a, ops, charge, c) == a.remaining[c]
  }

  function Grown(op: Operation, charge: nat, sizes: seq<nat>): int
    requires op.index < |sizes|
  {
    if op.returnDocument then Max(charge, sizes[op.index]) else sizes[op.index]
  }

  lemma {:induction false} NeedMonotone(a: Allowances, ops: seq<Operation>, n: nat, charge: nat, caller: nat)
    requires |a.sizes| == |a.owners| && InRange(ops, |a.owners|) && n <= |ops|
    ensures Need(a, ops[..n], charge, caller) <= Need(a, ops, charge, caller)
  {
    if n == |ops| {
      assert ops[..n] == ops;
    } else {
      NeedMonotone(a, ops[..|ops| - 1], n, charge, caller);
      assert ops[..|ops| - 1][..n] == ops[..n];
    }
  }

  lemma NeedNext(a: Allowances, ops: seq<Operation>, n: nat, charge: nat, caller: nat)
    requires |a.sizes| == |a.owners| && InRange(ops, |a.owners|) && n < |ops|
    ensures Need(a, ops[..n + 1], charge, caller) == Need(a, ops[..n], charge, caller)
            + (if ops[n].returnDocument && a.owners[ops[n].index] == caller
                then Max(0, charge - a.sizes[ops[n].index]) else 0)
  {
    assert ops[..n + 1][..n] == ops[..n];
  }

  lemma TakenNext(a: Allowances, ops: seq<Operation>, n: nat, charge: nat, remaining: seq<int>, difference: nat)
    requires |a.sizes| == |a.owners| && InRange(ops, |a.owners|) && n < |ops|
    requires a.owners[ops[n].index] < |remaining| && Taken(a, ops[..n], charge, remaining)
    requires difference == if ops[n].returnDocument then Max(0, charge - a.sizes[ops[n].index]) else 0
    ensures var o := a.owners[ops[n].index];
            Taken(a, ops[..n + 1], charge, remaining[o := remaining[o] - difference])
  {
    forall c | 0 <= c < |remaining|
      ensures (remaining[a.owners[ops[n].index] := remaining[a.owners[ops[n].index]] - difference])[c]
              + Need(a, ops[..n + 1], charge, c) == a.remaining[c]
    {
      NeedNext(a, ops, n, charge, c);
    }
  }

  /** Reservations of the first `n` operations are raised, all others as before. */
  ghost predicate Growing(ops: seq<Operation>, n: nat, charge: nat, before: seq<nat>, after: seq<nat>) {
    && |before| == |after| && DistinctIndexes(ops, |before|) && n <= |ops|
    && (forall i :: 0 <= i < n ==> after[ops[i].index] == Grown(ops[i], charge, before))
    && (forall i :: n <= i < |ops| ==> after[ops[i].index] == before[ops[i].index])
    && (forall j :: 0 <= j < |before| ==> before[j] <= after[j])
    && SameElsewhere(ops, before, after)
  }

  lemma GrowingNext(ops: seq<Operation>, n: nat, charge: nat, before: seq<nat>, after: seq<nat>)
    requires Growing(ops, n, charge, before, after) && n < |ops|
    ensures after[ops[n].index] == before[ops[n].index]
    ensures Growing(ops, n + 1, charge, before,
                    if ops[n].returnDocument then after[ops[n].index := Max(charge, after[ops[n].index])] else after)
  {
    hide Touches;
    var i := ops[n].index;
    var now := if ops[n].returnDocument then after[i := Max(charge, after[i])] else after;
    TouchesOwn(ops, n);
    forall k | 0 <= k < |ops| && k != n ensures now[ops[k].index] == after[ops[k].index] {
      DifferentIndexes(ops, |before|, k, n);
    }
  }

  lemma TouchesOwn(ops: seq<Operation>, n: nat)
    requires n < |ops|
    ensures Touches(ops, ops[n].index)
  {
  }

  lemma DifferentIndexes(ops: seq<Operation>, count: nat, k: nat, n: nat)
    requires DistinctIndexes(ops, count) && k < |ops| && n < |ops| && k != n
    ensures ops[k].index != ops[n].index
  {
  }

  /** After `n` operations: their needs are taken and nothing else changed. */
  ghost predicate Reserving(a: Allowances, b: Allowances, ops: seq<Operation>, n: nat, charge: nat, memory: seq<bool>) {
    && Conserved(a) && Conserved(b) && b == a.(remaining := b.remaining, sizes := b.sizes)
    && DistinctIndexes(ops, |a.owners|) && n <= |ops| == |memory|
    && Taken(a, ops[..n], charge, b.remaining)
    && (forall i :: 0 <= i < |ops| ==> a.kept[ops[i].index] == 0)
    && (forall i :: 0 <= i < n && ops[i].returnDocument ==> memory[i])
    && Growing(ops, n, charge, a.sizes, b.sizes)
  }

  lemma ReservingStart(a: Allowances, ops: seq<Operation>, charge: nat, memory: seq<bool>)
    requires Conserved(a) && DistinctIndexes(ops, |a.owners|) && |memory| == |ops|
    requires forall i :: 0 <= i < |ops| ==> a.kept[ops[i].index] == 0
    ensures Reserving(a, a, ops, 0, charge, memory)
  {
    assert ops[..0] == [];
  }

  lemma ReservingShape(a: Allowances, b: Allowances, ops: seq<Operation>, n: nat, charge: nat, memory: seq<bool>)
    requires Reserving(a, b, ops, n, charge, memory) && n < |ops|
    ensures |b.sizes| == |b.owners| == |a.owners| && InRange(ops, |a.owners|)
    ensures b.owners[ops[n].index] < |b.remaining|
    ensures Conserved(b) && SameElsewhere(ops, a.sizes, b.sizes)
    ensures forall j :: 0 <= j < |a.sizes| ==> a.sizes[j] <= b.sizes[j]
  {
  }

  lemma ReservingNext(a: Allowances, b: Allowances, ops: seq<Operation>, n: nat, charge: nat, memory: seq<bool>)
    requires Reserving(a, b, ops, n, charge, memory) && n < |ops|
    requires ops[n].returnDocument ==>
               memory[n] && charge - b.sizes[ops[n].index] <= b.remaining[b.owners[ops[n].index]]
    ensures |b.sizes| == |b.owners| && b.owners[ops[n].index] < |b.remaining|
    ensures Reserving(a, if ops[n].returnDocument then Raised(b, ops[n].index, charge)
        else b, ops, n + 1, charge, memory)
  {
    hide Growing, Taken, Conserved, Need;
    var i := ops[n].index;
    ReservingShape(a, b, ops, n, charge, memory);
    GrowingNext(ops, n, charge, a.sizes, b.sizes);
    if ops[n].returnDocument {
      RaisedConserved(b, i, charge);
      TakenNext(a, ops, n, charge, b.remaining, Max(0, charge - b.sizes[i]));
    } else {
      TakenNext(a, ops, n, charge, b.remaining, 0);
      assert b.remaining == b.remaining[a.owners[i] := b.remaining[a.owners[i]]];
    }
  }

  /** An operation that gets no memory or no allowance shows that not all of
      them could be covered. */
  lemma Overdrawn(a: Allowances, b: Allowances, ops: seq<Operation>, n: nat, charge: nat, memory: seq<bool>)
    requires Reserving(a, b, ops, n, charge, memory) && n < |ops| && ops[n].returnDocument
    requires charge - b.sizes[ops[n].index] > b.remaining[b.owners[ops[n].index]] || !memory[n]
    ensures InRange(ops, |a.owners|)
    ensures !(Backed(ops, memory) && Payable(a, ops, charge))
  {
    var c := a.owners[ops[n].index];
    NeedNext(a, ops, n, charge, c);
    NeedMonotone(a, ops, n + 1, charge, c);
  }

  lemma ReservingEnd(a: Allowances, b: Allowances, ops: seq<Operation>, charge: nat, memory: seq<bool>)
    requires Reserving(a, b, ops, |ops|, charge, memory)
    ensures InRange(ops, |a.owners|) && |b.sizes| == |a.sizes| == |a.owners|
    ensures Backed(ops, memory) && Payable(a, ops, charge)
    ensures Conserved(b) && SameElsewhere(ops, a.sizes, b.sizes)
    ensures forall j :: 0 <= j < |a.sizes| ==> a.sizes[j] <= b.sizes[j]
    ensures forall i :: 0 <= i < |ops| ==> b.sizes[ops[i].index] == Grown(ops[i], charge, a.sizes)
  {
    assert ops[..|ops|] == ops;
    forall c | 0 <= c < |a.remaining| ensures Need(a, ops, charge, c) <= a.remaining[c] {
      assert b.remaining[c] >= 0;
    }
  }

  /** Every operation of `ops` that returns its document has room for it. */
  ghost predicate Covered(ops: seq<Operation>, document: Document, sizes: seq<nat>) {
    forall i :: 0 <= i < |ops| && ops[i].returnDocument ==>
      ops[i].index < |sizes| && Charge(document) <= sizes[ops[i].index]
  }

  /** Amounts that differ at most at the indexes of `ops`. */
  ghost predicate SameElsewhere(ops: seq<Operation>, before: seq<nat>, after: seq<nat>) {
    |before| == |after| && forall j :: 0 <= j < |before| && !Touches(ops, j) ==> after[j] == before[j]
  }

  /** The first `n` operations are settled, all others as before. */
  ghost predicate Settling(ops: seq<Operation>, n: nat, results: seq<WriteResult>, a: Allowances, b: Allowances) {
    && |b.sizes| == |b.kept| == |a.sizes| == |a.kept| == |a.owners| == |results| && b.owners == a.owners
    && |b.remaining| == |a.remaining| && (forall i :: 0 <= i < |a.owners| ==> a.owners[i] < |a.remaining|)
    && DistinctIndexes(ops, |results|) && n <= |ops|
    && SameElsewhere(ops, a.sizes, b.sizes) && SameElsewhere(ops, a.kept, b.kept)
    && (forall i :: n <= i < |ops| ==>
          b.sizes[ops[i].index] == a.sizes[ops[i].index] && b.kept[ops[i].index] == a.kept[ops[i].index])
    && (forall i :: 0 <= i < |ops| ==> Due(a, ops[i].index, Retained(results[ops[i].index])))
    && (forall i :: 0 <= i < n ==>
          b.sizes[ops[i].index] == 0 && b.kept[ops[i].index] == Retained(results[ops[i].index]))
  }

  lemma SettlingStart(ops: seq<Operation>, results: seq<WriteResult>, a: Allowances)
    requires Conserved(a) && DistinctIndexes(ops, |a.owners|) && |results| == |a.owners|
    requires forall i :: 0 <= i < |ops| ==> Due(a, ops[i].index, Retained(results[ops[i].index]))
    ensures Settling(ops, 0, results, a, a)
  {
  }

  lemma SettlingNext(ops: seq<Operation>, n: nat, results: seq<WriteResult>, a: Allowances, b: Allowances)
    requires Settling(ops, n, results, a, b) && n < |ops|
    ensures var i := ops[n].index;
            && i < |results| && i < |b.owners| == |b.sizes| == |b.kept| && b.owners[i] < |b.remaining|
            && Due(b, i, Retained(results[i]))
            && Settling(ops, n + 1, results, a, Settled(b, i, Retained(results[i])))
  {
    hide Touches, Retained;
    var i := ops[n].index;
    var now := Settled(b, i, Retained(results[i]));
    TouchesOwn(ops, n);
    forall k | 0 <= k < |ops| && k != n
      ensures now.sizes[ops[k].index] == b.sizes[ops[k].index] && now.kept[ops[k].index] == b.kept[ops[k].index]
    {
      DifferentIndexes(ops, |results|, k, n);
    }
  }

  // ---------------------------------------------------------------------
  // The object
  // ---------------------------------------------------------------------

  class Returns {
    const owners: seq<nat>
    const maximum: seq<nat>
    var remaining: seq<int>
    var sizes: seq<nat>
    ghost var kept: seq<nat>

    ghost function State(): Allowances
      reads this
    {
      Allowances(owners, maximum, remaining, sizes, kept)
    }

    constructor (owners: seq<nat>, maximum: seq<nat>)
      requires forall i :: 0 <= i < |owners| ==> owners[i] < |maximum|
      ensures Conserved(State()) && this.owners == owners && this.maximum == maximum
      ensures remaining == maximum && sizes == seq(|owners|, _ => 0) && kept == sizes
    {
      var none: seq<nat> := seq(|owners|, _ => 0);
      this.owners, this.maximum := owners, maximum;
      remaining, sizes, kept := maximum, none, none;
      new;
      forall c | 0 <= c < |maximum| ensures Owed(owners, none, c) == 0 {
        OwedZero(owners, none, c);
      }
    }

    /** `reserve`: room for `document` for every operation that returns it, or a
        failure that leaves some of that room reserved.  `memory` says for which
        operations the process has memory left. */
    method Reserve(ops: seq<Operation>, document: Document, memory: seq<bool>) returns (ok: bool)
      requires Conserved(State()) && DistinctIndexes(ops, |owners|) && |memory| == |ops|
      requires forall i :: 0 <= i < |ops| ==> kept[ops[i].index] == 0
      modifies this`remaining, this`sizes
      ensures Conserved(State()) && |sizes| == |old(sizes)|
      ensures ok <==> Backed(ops, memory) && Payable(old(State()), ops, Charge(document))
      ensures ok ==> forall i :: 0 <= i < |ops| ==> sizes[ops[i].index] == Grown(ops[i], Charge(document), old(sizes))
      ensures forall j :: 0 <= j < |sizes| ==> old(sizes)[j] <= sizes[j]
      ensures SameElsewhere(ops, old(sizes), sizes)
    {
      hide Reserving, Payable, Backed, Conserved, SameElsewhere, DistinctIndexes, Need, Owed;
      ok := true;
      ghost var a := State();
      var charge: nat := Charge(document);
      ReservingStart(a, ops, charge, memory);
      for n := 0 to |ops|
        invariant Reserving(a, State(), ops, n, charge, memory)
      {
        ReservingShape(a, State(), ops, n, charge, memory);
        var i := ops[n].index;
        if ops[n].returnDocument {
          var difference: nat := Max(0, charge - sizes[i]);
          if difference > remaining[owners[i]] || !memory[n] {
            Overdrawn(a, State(), ops, n, charge, memory);
            ok := false;
            return;
          }
          ReservingNext(a, State(), ops, n, charge, memory);
          remaining := remaining[owners[i] := remaining[owners[i]] - difference];
          sizes := sizes[i := Max(charge, sizes[i])];
        } else {
          ReservingNext(a, State(), ops, n, charge, memory);
        }
      }
      ReservingEnd(a, State(), ops, charge, memory);
    }

    /** `settle`: give back what a final result does not retain. */
    method Settle(ops: seq<Operation>, results: seq<WriteResult>)
      requires Conserved(State()) && DistinctIndexes(ops, |owners|) && |results| == |owners|
      requires forall i :: 0 <= i < |ops| ==> Due(State(), ops[i].index, Retained(results[ops[i].index]))
      modifies this
      ensures Conserved(State()) && |sizes| == |old(sizes)|
      ensures SameElsewhere(ops, old(sizes), sizes) && SameElsewhere(ops, old(kept), kept)
      ensures forall i :: 0 <= i < |ops| ==>
                sizes[ops[i].index] == 0 && kept[ops[i].index] == Retained(results[ops[i].index])
    {
      hide Conserved, Owed, Touches;
      ghost var a := State();
      SettlingStart(ops, results, a);
      for n := 0 to |ops|
        invariant Conserved(State()) && Settling(ops, n, results, a, State())
      {
        hide Settling;
        var i := ops[n].index;
        SettlingNext(ops, n, results, a, State());
        SettledConserved(State(), i, Retained(results[i]));
        var unused := Max(0, sizes[i] - Retained(results[i]));
        remaining := remaining[owners[i] := remaining[owners[i]] + unused];
        kept := kept[i := Retained(results[i])];
        sizes := sizes[i := 0];
      }
    }
  }
}
