/** Grouping the writes of a request by record, and running the operations that
    return their document in rounds of their own (internal/service/write.go,
    buildWriteGroups and executeWriteGroups). */
module WriteRounds {
  import opened WriteFolding
  import opened WriteReports

  datatype Parsed = Parsed(key: nat, op: Operation)

  /** The operations of record `key`, in order. */
  function Of(parsed: seq<Parsed>, key: nat): seq<Operation> {
    if parsed == [] then []
    else
      var last := parsed[|parsed| - 1];
      Of(parsed[..|parsed| - 1], key) + (if last.key == key then [last.op] else [])
  }

  // ---------------------------------------------------------------------
  // Which results the operations write
  // ---------------------------------------------------------------------

  /** How many of the operations write result `x`. */
  function MarksOf(ops: seq<Operation>, x: nat): nat {
    if ops == [] then 0 else MarksOf(ops[..|ops| - 1], x) + (if ops[|ops| - 1].index == x then 1 else 0)
  }

  function Marks(groups: Groups, x: nat): nat {
    if groups == [] then 0 else Marks(groups[..|groups| - 1], x) + MarksOf(groups[|groups| - 1].ops, x)
  }

  function ParsedMarks(parsed: seq<Parsed>, x: nat): nat {
    if parsed == [] then 0
    else ParsedMarks(parsed[..|parsed| - 1], x) + (if parsed[|parsed| - 1].op.index == x then 1 else 0)
  }

  /** No two operations write the same result, and all results exist. */
  ghost predicate Separate(groups: Groups, size: nat) {
    forall x: nat :: Marks(groups, x) <= (if x < size then 1 else 0)
  }

  lemma MarksOfAppend(ops: seq<Operation>, op: Operation, x: nat)
    ensures MarksOf(ops + [op], x) == MarksOf(ops, x) + (if op.index == x then 1 else 0)
  {
    assert (ops + [op])[..|ops|] == ops;
  }

  lemma MarksAppend(groups: Groups, g: Group, x: nat)
    ensures Marks(groups + [g], x) == Marks(groups, x) + MarksOf(g.ops, x)
  {
    assert (groups + [g])[..|groups|] == groups;
  }

  lemma MarksOfOne(op: Operation, x: nat)
    ensures MarksOf([op], x) == if op.index == x then 1 else 0
  {
    MarksOfAppend([], op, x);
    assert [] + [op] == [op];
  }

  lemma {:induction false} MarksOfFirst(ops: seq<Operation>, x: nat)
    requires ops != []
    ensures MarksOf([ops[0]], x) + MarksOf(ops[1..], x) == MarksOf(ops, x)
  {
    if |ops| == 1 {
      assert ops == [ops[0]] && ops[1..] == [];
    } else {
      var n := |ops| - 1;
      MarksOfFirst(ops[..n], x);
      assert ops[1..] == ops[..n][1..] + [ops[n]];
      MarksOfAppend(ops[..n][1..], ops[n], x);
    }
  }

  lemma {:induction false} MarkAt(ops: seq<Operation>, i: nat)
    requires i < |ops|
    ensures MarksOf(ops, ops[i].index) >= 1
  {
    if i < |ops| - 1 {
      MarkAt(ops[..|ops| - 1], i);
    }
  }

  lemma {:induction false} MarkTwice(ops: seq<Operation>, i: nat, j: nat)
    requires i < j < |ops| && ops[i].index == ops[j].index
    ensures MarksOf(ops, ops[i].index) >= 2
  {
    var n := |ops| - 1;
    if j < n {
      MarkTwice(ops[..n], i, j);
    } else {
      MarkAt(ops[..n], i);
    }
  }

  lemma {:induction false} GroupMarks(groups: Groups, k: nat, x: nat)
    requires k < |groups|
    ensures MarksOf(groups[k].ops, x) <= Marks(groups, x)
  {
    if k < |groups| - 1 {
      GroupMarks(groups[..|groups| - 1], k, x);
    }
  }

  lemma {:induction false} TwoGroupMarks(groups: Groups, k: nat, m: nat, x: nat)
    requires k < m < |groups|
    ensures MarksOf(groups[k].ops, x) + MarksOf(groups[m].ops, x) <= Marks(groups, x)
  {
    var n := |groups| - 1;
    if m < n {
      TwoGroupMarks(groups[..n], k, m, x);
    } else {
      GroupMarks(groups[..n], k, x);
    }
  }

  lemma MarksDistinct(groups: Groups, size: nat, k: nat)
    requires Separate(groups, size) && k < |groups|
    ensures DistinctIndexes(groups[k].ops, size)
  {
    hide Marks, MarksOf;
    var ops := groups[k].ops;
    forall i | 0 <= i < |ops| ensures ops[i].index < size {
      MarkAt(ops, i);
      GroupMarks(groups, k, ops[i].index);
    }
    forall i, j | 0 <= i < j < |ops| ensures ops[i].index != ops[j].index {
      if ops[i].index == ops[j].index {
        MarkTwice(ops, i, j);
        GroupMarks(groups, k, ops[i].index);
      }
    }
  }

  lemma MarksApart(groups: Groups, size: nat, k: nat, m: nat)
    requires k < m < |groups| && Separate(groups, size)
    ensures Apart(groups[k].ops, groups[m].ops) && Apart(groups[m].ops, groups[k].ops)
  {
    hide Marks, MarksOf;
    var a, b := groups[k].ops, groups[m].ops;
    forall i, j | 0 <= i < |a| && 0 <= j < |b| ensures a[i].index != b[j].index {
      MarkAt(a, i);
      MarkAt(b, j);
      TwoGroupMarks(groups, k, m, a[i].index);
    }
  }

  /** Operations that all write different results can run as one wave. */
  lemma SeparateDisjoint(groups: Groups, size: nat)
    requires DistinctKeys(groups) && Separate(groups, size)
    ensures Disjoint(groups, size)
  {
    hide Separate;
    forall k | 0 <= k < |groups| ensures DistinctIndexes(groups[k].ops, size) {
      MarksDistinct(groups, size, k);
    }
    forall k, m | 0 <= k < |groups| && 0 <= m < |groups| && k != m ensures Apart(groups[k].ops, groups[m].ops) {
      if k < m {
        MarksApart(groups, size, k, m);
      } else {
        MarksApart(groups, size, m, k);
      }
    }
  }

  // ---------------------------------------------------------------------
  // Grouping
  // ---------------------------------------------------------------------

  /** The groups of the operations so far, with the position of each record. */
  ghost predicate Built(parsed: seq<Parsed>, groups: Groups, positions: map<nat, nat>) {
    && (forall k :: k in positions ==> positions[k] < |groups| && groups[positions[k]].key == k)
    && (forall i :: 0 <= i < |groups| ==> groups[i].key in positions && positions[groups[i].key] == i)
    && (forall i :: 0 <= i < |groups| ==> groups[i].ops == Of(parsed, groups[i].key) && groups[i].ops != [])
    && (forall k :: k !in positions ==> Of(parsed, k) == [])
  }

  ghost predicate SameMarks(parsed: seq<Parsed>, groups: Groups) {
    forall x :: Marks(groups, x) == ParsedMarks(parsed, x)
  }

  lemma OfNext(parsed: seq<Parsed>, p: Parsed)
    ensures forall k :: Of(parsed + [p], k) == Of(parsed, k) + (if p.key == k then [p.op] else [])
  {
    assert (parsed + [p])[..|parsed|] == parsed;
  }

  lemma {:induction false} MarksUpdate(groups: Groups, k: nat, op: Operation, x: nat)
    requires k < |groups|
    ensures Marks(groups[k := groups[k].(ops := groups[k].ops + [op])], x)
        == Marks(groups, x) + (if op.index == x then 1 else 0)
  {
    var n := |groups| - 1;
    var now := groups[k := groups[k].(ops := groups[k].ops + [op])];
    MarksOfAppend(groups[k].ops, op, x);
    if k < n {
      MarksUpdate(groups[..n], k, op, x);
      assert now[..n] == groups[..n][k := groups[k].(ops := groups[k].ops + [op])];
    } else {
      assert now[..n] == groups[..n];
    }
  }

  lemma ParsedNext(parsed: seq<Parsed>, p: Parsed, x: nat)
    ensures ParsedMarks(parsed + [p], x) == ParsedMarks(parsed, x) + (if p.op.index == x then 1 else 0)
  {
    assert (parsed + [p])[..|parsed|] == parsed;
  }

  lemma MarksKnown(parsed: seq<Parsed>, groups: Groups, k: nat, p: Parsed)
    requires SameMarks(parsed, groups) && k < |groups|
    ensures SameMarks(parsed + [p], groups[k := groups[k].(ops := groups[k].ops + [p.op])])
  {
    hide Marks, ParsedMarks;
    var now := groups[k := groups[k].(ops := groups[k].ops + [p.op])];
    forall x ensures Marks(now, x) == ParsedMarks(parsed + [p], x) {
      assert Marks(groups, x) == ParsedMarks(parsed, x);
      ParsedNext(parsed, p, x);
      MarksUpdate(groups, k, p.op, x);
    }
  }

  lemma MarksNew(parsed: seq<Parsed>, groups: Groups, p: Parsed)
    requires SameMarks(parsed, groups)
    ensures SameMarks(parsed + [p], groups + [Group(p.key, [p.op])])
  {
    hide Marks, ParsedMarks;
    forall x ensures Marks(groups + [Group(p.key, [p.op])], x) == ParsedMarks(parsed + [p], x) {
      assert Marks(groups, x) == ParsedMarks(parsed, x);
      ParsedNext(parsed, p, x);
      MarksAppend(groups, Group(p.key, [p.op]), x);
      MarksOfOne(p.op, x);
    }
  }

  lemma BuiltKnown(parsed: seq<Parsed>, groups: Groups, positions: map<nat, nat>, p: Parsed)
    requires Built(parsed, groups, positions) && p.key in positions
    ensures var g := groups[positions[p.key]];
            Built(parsed + [p], groups[positions[p.key] := g.(ops := g.ops + [p.op])], positions)
  {
    OfNext(parsed, p);
    hide Of;
  }

  lemma BuiltNew(parsed: seq<Parsed>, groups: Groups, positions: map<nat, nat>, p: Parsed)
    requires Built(parsed, groups, positions) && p.key !in positions
    ensures Built(parsed + [p], groups + [Group(p.key, [p.op])], positions[p.key := |groups|])
  {
    OfNext(parsed, p);
    hide Of;
  }

  /** `buildWriteGroups`: one group per record, holding that record's
      operations in request order. */
  method BuildWriteGroups(parsed: seq<Parsed>) returns (groups: Groups)
    ensures DistinctKeys(groups)
    ensures forall i :: 0 <= i < |groups| ==> groups[i].ops == Of(parsed, groups[i].key) && groups[i].ops != []
    ensures forall key :: Of(parsed, key) != [] ==> exists i :: 0 <= i < |groups| && groups[i].key == key
    ensures SameMarks(parsed, groups)
  {
    groups := [];
    var positions: map<nat, nat> := map[];
    for n := 0 to |parsed|
      invariant Built(parsed[..n], groups, positions) && SameMarks(parsed[..n], groups)
    {
      var p := parsed[n];
      assert parsed[..n + 1] == parsed[..n] + [p];
      if p.key in positions {
        BuiltKnown(parsed[..n], groups, positions, p);
        MarksKnown(parsed[..n], groups, positions[p.key], p);
        var position := positions[p.key];
        hide Built, SameMarks;
        groups := groups[position := groups[position].(ops := groups[position].ops + [p.op])];
      } else {
        BuiltNew(parsed[..n], groups, positions, p);
        MarksNew(parsed[..n], groups, p);
        hide Built, SameMarks;
        positions := positions[p.key := |groups|];
        groups := groups + [Group(p.key, [p.op])];
      }
    }
    assert parsed[..|parsed|] == parsed;
    forall key | Of(parsed, key) != [] ensures exists i :: 0 <= i < |groups| && groups[i].key == key {
      assert groups[positions[key]].key == key;
    }
  }

  // ---------------------------------------------------------------------
  // Rounds
  // ---------------------------------------------------------------------

  predicate HasReturns(ops: seq<Operation>) {
    exists i :: 0 <= i < |ops| && ops[i].returnDocument
  }

  /** What a list of groups does to record `key`, in order. */
  function OnKey(groups: Groups, key: nat): seq<Operation> {
    if groups == [] then []
    else
      var last := groups[|groups| - 1];
      OnKey(groups[..|groups| - 1], key) + (if last.key == key then last.ops else [])
  }

  /** An operation that returns its document is alone in its commit. */
  ghost predicate Alone(wave: Groups) {
    forall i :: 0 <= i < |wave| ==> |wave[i].ops| == 1 || !HasReturns(wave[i].ops)
  }

  function Total(groups: Groups): nat {
    if groups == [] then 0 else Total(groups[..|groups| - 1]) + |groups[|groups| - 1].ops|
  }

  lemma {:induction false} OnKeyAbsent(groups: Groups, key: nat)
    requires forall i :: 0 <= i < |groups| ==> groups[i].key != key
    ensures OnKey(groups, key) == []
  {
    if groups != [] {
      OnKeyAbsent(groups[..|groups| - 1], key);
    }
  }

  /** Separating the first operation of every group that returns documents. */
  ghost predicate SplitOf(groups: Groups, wave: Groups, next: Groups) {
    && Alone(wave)
    && DistinctKeys(wave) && DistinctKeys(next)
    && SameOrder(groups, wave, next)
    && (forall i :: 0 <= i < |wave| ==> wave[i].ops != [])
    && (forall i :: 0 <= i < |next| ==> next[i].ops != [])
    && Total(wave) + Total(next) == Total(groups)
    && SplitMarks(groups, wave, next)
    && |wave| == |groups|
    && (forall i :: 0 <= i < |wave| ==> wave[i].key == groups[i].key)
    && KeysIn(groups, next)
  }

  /** On every record, the wave's operations and then the rest are the original
      ones in their order. */
  ghost predicate SameOrder(groups: Groups, wave: Groups, next: Groups) {
    forall key :: OnKey(wave, key) + OnKey(next, key) == OnKey(groups, key)
  }

  ghost predicate SplitMarks(groups: Groups, wave: Groups, next: Groups) {
    forall x :: Marks(wave, x) + Marks(next, x) == Marks(groups, x)
  }

  lemma MarksSingle(groups: Groups, wave: Groups, next: Groups, g: Group)
    requires SplitMarks(groups, wave, next)
    ensures SplitMarks(groups + [g], wave + [g], next)
  {
    hide Marks, MarksOf;
    forall x ensures Marks(wave + [g], x) + Marks(next, x) == Marks(groups + [g], x) {
      assert Marks(wave, x) + Marks(next, x) == Marks(groups, x);
      MarksAppend(groups, g, x);
      MarksAppend(wave, g, x);
    }
  }

  lemma MarksFirst(groups: Groups, wave: Groups, next: Groups, g: Group)
    requires SplitMarks(groups, wave, next) && g.ops != []
    ensures SplitMarks(groups + [g], wave + [Group(g.key, [g.ops[0]])], next + [Group(g.key, g.ops[1..])])
  {
    hide Marks, MarksOf;
    var first, rest := Group(g.key, [g.ops[0]]), Group(g.key, g.ops[1..]);
    forall x ensures Marks(wave + [first], x) + Marks(next + [rest], x) == Marks(groups + [g], x) {
      assert Marks(wave, x) + Marks(next, x) == Marks(groups, x);
      MarksAppend(groups, g, x);
      MarksAppend(wave, first, x);
      MarksAppend(next, rest, x);
      MarksOfFirst(g.ops, x);
    }
  }

  ghost predicate Has(groups: Groups, key: nat) { exists j :: 0 <= j < |groups| && groups[j].key == key }

  ghost predicate KeysIn(groups: Groups, next: Groups) {
    forall i :: 0 <= i < |next| ==> Has(groups, next[i].key)
  }

  lemma HasMore(groups: Groups, g: Group, key: nat)
    ensures Has(groups + [g], key) <==> Has(groups, key) || g.key == key
  {
    var now := groups + [g];
    assert now[|groups|] == g;
    if Has(groups, key) {
      var j :| 0 <= j < |groups| && groups[j].key == key;
      assert now[j].key == key;
    }
  }

  lemma KeyAbsent(groups: Groups, next: Groups, key: nat)
    requires KeysIn(groups, next) && forall i :: 0 <= i < |groups| ==> groups[i].key != key
    ensures forall i :: 0 <= i < |next| ==> next[i].key != key
  {
  }

  lemma OnKeyAppend(groups: Groups, g: Group, key: nat)
    ensures OnKey(groups + [g], key) == OnKey(groups, key) + (if g.key == key then g.ops else [])
  {
    assert (groups + [g])[..|groups|] == groups;
  }

  lemma OrderSingle(groups: Groups, wave: Groups, next: Groups, g: Group)
    requires SameOrder(groups, wave, next) && forall i :: 0 <= i < |next| ==> next[i].key != g.key
    ensures SameOrder(groups + [g], wave + [g], next)
  {
    forall key ensures OnKey(wave + [g], key) + OnKey(next, key) == OnKey(groups + [g], key) {
      hide OnKey;
      assert OnKey(wave, key) + OnKey(next, key) == OnKey(groups, key);
      OnKeyAppend(groups, g, key);
      OnKeyAppend(wave, g, key);
      if key == g.key {
        OnKeyAbsent(next, key);
      }
    }
  }

  lemma OrderFirst(groups: Groups, wave: Groups, next: Groups, g: Group)
    requires SameOrder(groups, wave, next) && g.ops != []
    requires (forall i :: 0 <= i < |next| ==> next[i].key != g.key)
        && (forall i :: 0 <= i < |groups| ==> groups[i].key != g.key)
    ensures SameOrder(groups + [g], wave + [Group(g.key, [g.ops[0]])], next + [Group(g.key, g.ops[1..])])
  {
    var first, rest := Group(g.key, [g.ops[0]]), Group(g.key, g.ops[1..]);
    forall key ensures OnKey(wave + [first], key) + OnKey(next + [rest], key) == OnKey(groups + [g], key) {
      hide OnKey;
      assert OnKey(wave, key) + OnKey(next, key) == OnKey(groups, key);
      OnKeyAppend(groups, g, key);
      OnKeyAppend(wave, first, key);
      OnKeyAppend(next, rest, key);
      if key == g.key {
        OnKeyAbsent(next, key);
        OnKeyAbsent(groups, key);
        assert [g.ops[0]] + g.ops[1..] == g.ops;
      }
    }
  }

  lemma TotalAppend(groups: Groups, g: Group)
    ensures Total(groups + [g]) == Total(groups) + |g.ops|
  {
    assert (groups + [g])[..|groups|] == groups;
  }

  lemma AloneMore(wave: Groups, g: Group)
    requires Alone(wave) && (|g.ops| == 1 || !HasReturns(g.ops))
    ensures Alone(wave + [g])
  {
    hide HasReturns;
  }

  lemma DistinctMore(wave: Groups, g: Group)
    requires DistinctKeys(wave) && forall i :: 0 <= i < |wave| ==> wave[i].key != g.key
    ensures DistinctKeys(wave + [g])
  {
  }

  lemma SplitSingle(groups: Groups, wave: Groups, next: Groups, g: Group)
    requires SplitOf(groups, wave, next) && g.ops != [] && forall i :: 0 <= i < |groups| ==> groups[i].key != g.key
    requires |g.ops| == 1 || !HasReturns(g.ops)
    ensures SplitOf(groups + [g], wave + [g], next)
  {
    hide OnKey, Total, SameOrder, KeysIn, HasReturns, Alone, DistinctKeys, SplitMarks;
    TotalAppend(groups, g);
    TotalAppend(wave, g);
    MarksSingle(groups, wave, next, g);
    KeyAbsent(groups, next, g.key);
    OrderSingle(groups, wave, next, g);
    KeysStay(groups, next, g);
    AloneMore(wave, g);
    DistinctMore(wave, g);
  }

  /** The keys of `next` still occur when a group is added. */
  lemma KeysStay(groups: Groups, next: Groups, g: Group)
    requires KeysIn(groups, next)
    ensures KeysIn(groups + [g], next)
  {
    forall i | 0 <= i < |next| ensures Has(groups + [g], next[i].key) {
      HasMore(groups, g, next[i].key);
    }
  }

  lemma KeysJoin(groups: Groups, next: Groups, g: Group, rest: Group)
    requires KeysIn(groups, next) && rest.key == g.key
    ensures KeysIn(groups + [g], next + [rest])
  {
    forall i | 0 <= i < |next + [rest]| ensures Has(groups + [g], (next + [rest])[i].key) {
      HasMore(groups, g, (next + [rest])[i].key);
    }
  }

  lemma SplitFirst(groups: Groups, wave: Groups, next: Groups, g: Group)
    requires SplitOf(groups, wave, next) && |g.ops| > 1 && forall i :: 0 <= i < |groups| ==> groups[i].key != g.key
    ensures SplitOf(groups + [g], wave + [Group(g.key, [g.ops[0]])], next + [Group(g.key, g.ops[1..])])
  {
    hide OnKey, Total, SameOrder, KeysIn, HasReturns, Alone, DistinctKeys, SplitMarks;
    var first, rest := Group(g.key, [g.ops[0]]), Group(g.key, g.ops[1..]);
    TotalAppend(groups, g);
    TotalAppend(wave, first);
    TotalAppend(next, rest);
    MarksFirst(groups, wave, next, g);
    KeyAbsent(groups, next, g.key);
    OrderFirst(groups, wave, next, g);
    KeysJoin(groups, next, g, rest);
    AloneMore(wave, first);
    DistinctMore(wave, first);
    DistinctMore(next, rest);
  }

  /** The inner loop of `executeWriteGroups`. */
  method SplitWave(groups: Groups) returns (wave: Groups, next: Groups)
    requires DistinctKeys(groups) && forall i :: 0 <= i < |groups| ==> groups[i].ops != []
    ensures SplitOf(groups, wave, next)
  {
    wave, next := [], [];
    for n := 0 to |groups|
      invariant SplitOf(groups[..n], wave, next)
    {
      var g := groups[n];
      assert groups[..n + 1] == groups[..n] + [g];
      hide SplitOf;
      if |g.ops| > 1 && HasReturns(g.ops) {
        SplitFirst(groups[..n], wave, next, g);
        wave := wave + [Group(g.key, [g.ops[0]])];
        next := next + [Group(g.key, g.ops[1..])];
      } else {
        SplitSingle(groups[..n], wave, next, g);
        wave := wave + [g];
      }
    }
    assert groups[..|groups|] == groups;
  }

  lemma NonEmptyTotal(groups: Groups)
    requires groups != [] && forall i :: 0 <= i < |groups| ==> groups[i].ops != []
    ensures Total(groups) > 0
  {
  }
}
