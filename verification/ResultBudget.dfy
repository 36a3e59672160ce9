/** The budget walk over a script's result (internal/merge/result_budget.go): it
    accepts a value exactly when its full expansion is finite and small enough. */
module ResultBudget {

  /** A scalar, a string of some length, or a table by identity. */
  datatype Value = Scalar | Text(length: nat) | Table(id: nat)

  datatype Entry = Entry(key: Value, item: Value)

  /** The entries of each table, in iteration order. */
  type Heap = map<nat, seq<Entry>>

  const MaxDepth := 256

  function Entries(heap: Heap, v: Value): seq<Entry> {
    if v.Table? && v.id in heap then heap[v.id] else []
  }

  function Cost(v: Value): nat { if v.Text? then v.length + 3 else 1 }

  // ---------------------------------------------------------------------
  // The full expansion, with aliases counted at each occurrence
  // ---------------------------------------------------------------------

  /** The expansion has at most `h` levels below its root. A value on a cycle is
      not shallow for any `h`. */
  ghost predicate Shallow(heap: Heap, v: Value, h: nat)
    decreases h
  {
    forall k :: 0 <= k < |Entries(heap, v)| ==>
      h > 0 && Shallow(heap, Entries(heap, v)[k].key, h - 1) && Shallow(heap, Entries(heap, v)[k].item, h - 1)
  }

  /** The nodes and bytes of the expansion, cut off `h` levels below its root. */
  function Nodes(heap: Heap, v: Value, h: nat): nat
    decreases h, 0
  {
    1 + if h == 0 then 0 else NodesOf(heap, Entries(heap, v), h - 1)
  }

  function NodesOf(heap: Heap, es: seq<Entry>, h: nat): nat
    decreases h, 1, |es|
  {
    if es == [] then 0
    else
      var e := es[|es| - 1];
      NodesOf(heap, es[..|es| - 1], h) + Nodes(heap, e.key, h) + Nodes(heap, e.item, h)
  }

  function Bytes(heap: Heap, v: Value, h: nat): nat
    decreases h, 0
  {
    Cost(v) + if h == 0 then 0 else BytesOf(heap, Entries(heap, v), h - 1)
  }

  function BytesOf(heap: Heap, es: seq<Entry>, h: nat): nat
    decreases h, 1, |es|
  {
    if es == [] then 0
    else
      var e := es[|es| - 1];
      BytesOf(heap, es[..|es| - 1], h) + Bytes(heap, e.key, h) + Bytes(heap, e.item, h)
  }

  lemma {:induction false} ShallowMonotone(heap: Heap, v: Value, g: nat, h: nat)
    requires Shallow(heap, v, g) && g <= h
    ensures Shallow(heap, v, h)
    decreases g
  {
    forall k | 0 <= k < |Entries(heap, v)|
      ensures h > 0 && Shallow(heap, Entries(heap, v)[k].key, h - 1) && Shallow(heap, Entries(heap, v)[k].item, h - 1)
    {
      ShallowMonotone(heap, Entries(heap, v)[k].key, g - 1, h - 1);
      ShallowMonotone(heap, Entries(heap, v)[k].item, g - 1, h - 1);
    }
  }

  /** Every table under visit contains the value: whenever its expansion is
      shallow, the value's is one level less high. */
  ghost predicate Inside(heap: Heap, active: set<nat>, v: Value) {
    forall a, g: nat :: a in active && Shallow(heap, Table(a), g) ==> g > 0 && Shallow(heap, v, g - 1)
  }

  ghost predicate Contains(heap: Heap, v: Value, child: Value) {
    exists k :: 0 <= k < |Entries(heap, v)| && (child == Entries(heap, v)[k].key || child == Entries(heap, v)[k].item)
  }

  lemma InsideChild(heap: Heap, active: set<nat>, v: Value, child: Value)
    requires v.Table? && Inside(heap, active, v) && Contains(heap, v, child)
    ensures Inside(heap, active + {v.id}, child)
  {
    forall a, g: nat | a in active + {v.id} && Shallow(heap, Table(a), g) ensures g > 0 && Shallow(heap, child, g - 1) {
      if a != v.id {
        ShallowMonotone(heap, child, g - 2, g - 1);
      }
    }
  }

  /** A table met while it is under visit has no finite expansion. */
  lemma {:induction false} CycleIsEndless(heap: Heap, active: set<nat>, v: Value, h: nat)
    requires v.Table? && v.id in active && Inside(heap, active, v)
    ensures !Shallow(heap, v, h)
  {
    if h > 0 {
      CycleIsEndless(heap, active, v, h - 1);
    }
  }

  lemma {:induction false} PrefixSmaller(heap: Heap, es: seq<Entry>, k: nat, h: nat)
    requires k <= |es|
    ensures NodesOf(heap, es[..k], h) <= NodesOf(heap, es, h) && BytesOf(heap, es[..k], h) <= BytesOf(heap, es, h)
    decreases |es| - k
  {
    if k < |es| {
      PrefixSmaller(heap, es, k + 1, h);
      assert es[..k + 1][..k] == es[..k];
    } else {
      assert es[..k] == es;
    }
  }

  lemma PrefixNext(heap: Heap, es: seq<Entry>, k: nat, h: nat)
    requires k < |es|
    ensures NodesOf(heap, es[..k + 1], h)
        == NodesOf(heap, es[..k], h) + Nodes(heap, es[k].key, h) + Nodes(heap, es[k].item, h)
    ensures BytesOf(heap, es[..k + 1], h)
        == BytesOf(heap, es[..k], h) + Bytes(heap, es[k].key, h) + Bytes(heap, es[k].item, h)
    ensures NodesOf(heap, es[..k + 1], h) <= NodesOf(heap, es, h)
        && BytesOf(heap, es[..k + 1], h) <= BytesOf(heap, es, h)
  {
    PrefixSmaller(heap, es, k + 1, h);
    assert es[..k + 1][..k] == es[..k];
  }

  // ---------------------------------------------------------------------
  // The walk
  // ---------------------------------------------------------------------

  class Budget {
    const heap: Heap
    var remaining: int
    var nodes: int
    var active: set<nat>

    constructor (heap: Heap, maximum: int)
      ensures this.heap == heap && remaining == maximum && active == {}
      ensures nodes == NodeLimit(maximum)
    {
      this.heap, remaining, nodes, active := heap, maximum, NodeLimit(maximum), {};
    }

    /** What `v` costs below its own node, at `h` remaining levels, fits. */
    ghost predicate EntriesFit(v: Value, h: nat, nodes: int, bytes: int) {
      var es := Entries(heap, v);
      es == [] || (h > 0 && Shallow(heap, v, h) && NodesOf(heap, es, h - 1) <= nodes
          && BytesOf(heap, es, h - 1) <= bytes)
    }

    /** `visit`: succeeds exactly when the expansion fits, and then charges it. */
    method Visit(v: Value, depth: nat) returns (ok: bool)
      requires nodes >= 0 && remaining >= 0 && depth <= MaxDepth + 1 && Inside(heap, active, v)
      modifies this
      ensures ok <==> (depth <= MaxDepth && Shallow(heap, v, MaxDepth - depth)
                       && Nodes(heap, v, MaxDepth - depth) <= old(nodes)
                       && Bytes(heap, v, MaxDepth - depth) <= old(remaining))
      ensures ok ==> active == old(active)
      ensures ok ==> nodes == old(nodes) - Nodes(heap, v, MaxDepth - depth)
      ensures ok ==> remaining == old(remaining) - Bytes(heap, v, MaxDepth - depth)
      decreases MaxDepth + 1 - depth, 2
    {
      hide Shallow, Nodes, Bytes, NodesOf, BytesOf, Inside;
      if depth <= MaxDepth {
        ExpansionOf(heap, v, MaxDepth - depth);
      }
      AtLeastOne(heap, v, MaxDepth - depth);
      nodes := nodes - 1;
      var cost := Cost(v);
      if depth > MaxDepth || nodes < 0 || cost > remaining {
        return false;
      }
      remaining := remaining - cost;
      if !v.Table? {
        return true;
      }
      if v.id in active {
        CycleIsEndless(heap, active, v, MaxDepth - depth);
        return false;
      }
      ghost var before := active;
      active := active + {v.id};
      ok := VisitEntries(v, depth, before);
      active := active - {v.id};
    }

    /** One entry: its key and its item. */
    method VisitEntry(e: Entry, depth: nat) returns (ok: bool)
      requires nodes >= 0 && remaining >= 0 && depth <= MaxDepth && Inside(heap, active, e.key)
          && Inside(heap, active, e.item)
      modifies this
      ensures var h := MaxDepth - depth;
              && (ok <==> (&& Shallow(heap, e.key, h) && Shallow(heap, e.item, h)
                           && Nodes(heap, e.key, h) + Nodes(heap, e.item, h) <= old(nodes)
                           && Bytes(heap, e.key, h) + Bytes(heap, e.item, h) <= old(remaining)))
              && (ok ==> active == old(active) && nodes == old(nodes) - Nodes(heap, e.key, h) - Nodes(heap, e.item, h)
                         && remaining == old(remaining) - Bytes(heap, e.key, h) - Bytes(heap, e.item, h))
      decreases MaxDepth + 1 - depth, 3
    {
      hide Shallow, Nodes, Bytes, Inside;
      ok := Visit(e.key, depth);
      if ok {
        ok := Visit(e.item, depth);
      }
    }

    /** The entries of a table, with the table marked active. */
    method VisitEntries(v: Value, depth: nat, ghost before: set<nat>) returns (ok: bool)
      requires v.Table? && active == before + {v.id} && Inside(heap, before, v)
      requires nodes >= 0 && remaining >= 0 && depth <= MaxDepth
      modifies this
      ensures ok <==> EntriesFit(v, MaxDepth - depth, old(nodes), old(remaining))
      ensures ok ==> active == old(active)
      ensures ok && Entries(heap, v) == [] ==> nodes == old(nodes) && remaining == old(remaining)
      ensures ok && Entries(heap, v) != [] ==>
        && nodes == old(nodes) - NodesOf(heap, Entries(heap, v), MaxDepth - depth - 1)
        && remaining == old(remaining) - BytesOf(heap, Entries(heap, v), MaxDepth - depth - 1)
      decreases MaxDepth + 1 - depth, 1
    {
      hide Inside;
      var es := Entries(heap, v);
      if es == [] {
        return true;
      }
      if depth == MaxDepth {
        InsideChild(heap, before, v, es[0].key);
        ok := Visit(es[0].key, depth + 1);
        return;
      }
      ok := VisitAll(v, es, depth, before);
      hide Nodes, Bytes, NodesOf, BytesOf;
    }

    /** The loop over the entries, with a level left for them. */
    method VisitAll(v: Value, es: seq<Entry>, depth: nat, ghost before: set<nat>) returns (ok: bool)
      requires v.Table? && active == before + {v.id} && Inside(heap, before, v) && es == Entries(heap, v)
      requires nodes >= 0 && remaining >= 0 && depth < MaxDepth
      modifies this
      ensures var h := MaxDepth - depth - 1;
              && (ok <==> AllShallow(heap, es, h) && NodesOf(heap, es, h) <= old(nodes)
                          && BytesOf(heap, es, h) <= old(remaining))
              && (ok ==> active == old(active) && nodes == old(nodes) - NodesOf(heap, es, h)
                         && remaining == old(remaining) - BytesOf(heap, es, h))
      decreases MaxDepth + 1 - depth, 0
    {
      ghost var h := MaxDepth - depth - 1;
      assert NodesOf(heap, es[..0], h) == 0 && BytesOf(heap, es[..0], h) == 0;
      hide Nodes, Bytes, NodesOf, BytesOf, Shallow, Inside, AllShallow;
      NoneShallow(heap, h);
      for k := 0 to |es|
        invariant active == old(active) && nodes >= 0 && remaining >= 0
        invariant nodes == old(nodes) - NodesOf(heap, es[..k], h)
            && remaining == old(remaining) - BytesOf(heap, es[..k], h)
        invariant AllShallow(heap, es[..k], h)
      {
        InsideChild(heap, before, v, es[k].key);
        InsideChild(heap, before, v, es[k].item);
        PrefixNext(heap, es, k, h);
        ShallowNext(heap, es, k, h);
        ok := VisitEntry(es[k], depth + 1);
        if !ok {
          return;
        }
      }
      assert es[..|es|] == es;
      return true;
    }
  }

  ghost predicate AllShallow(heap: Heap, es: seq<Entry>, h: nat) {
    forall j :: 0 <= j < |es| ==> Shallow(heap, es[j].key, h) && Shallow(heap, es[j].item, h)
  }

  lemma NoneShallow(heap: Heap, h: nat)
    ensures AllShallow(heap, [], h)
  {
  }

  lemma ShallowNext(heap: Heap, es: seq<Entry>, k: nat, h: nat)
    requires k < |es| && AllShallow(heap, es[..k], h)
    ensures AllShallow(heap, es[..k + 1], h) <==> Shallow(heap, es[k].key, h) && Shallow(heap, es[k].item, h)
    ensures AllShallow(heap, es, h) ==> Shallow(heap, es[k].key, h) && Shallow(heap, es[k].item, h)
  {
    assert forall j :: 0 <= j < k ==> es[..k][j] == es[j] && es[..k + 1][j] == es[j];
  }

  /** The expansion of a value in terms of its entries. */
  lemma ExpansionOf(heap: Heap, v: Value, h: nat)
    ensures Entries(heap, v) == [] ==> Shallow(heap, v, h) && Nodes(heap, v, h) == 1 && Bytes(heap, v, h) == Cost(v)
    ensures Entries(heap, v) != [] && h == 0 ==> !Shallow(heap, v, h)
    ensures h > 0 ==> Nodes(heap, v, h) == 1 + NodesOf(heap, Entries(heap, v), h - 1)
    ensures h > 0 ==> Bytes(heap, v, h) == Cost(v) + BytesOf(heap, Entries(heap, v), h - 1)
  {
  }

  /** Every value costs a node and its own bytes. */
  lemma AtLeastOne(heap: Heap, v: Value, h: int)
    ensures h >= 0 ==> Nodes(heap, v, h) >= 1 && Bytes(heap, v, h) >= Cost(v)
  {
  }

  function NodeLimit(maximum: int): int {
    var byBytes := if maximum / 8 < 1_000_000 then maximum / 8 else 1_000_000;
    if byBytes < 64 then 64 else byBytes
  }

  /** `validateResultBudget`: accepted exactly when the full expansion is finite,
      at most 256 levels deep, and within the node and byte limits. */
  method ValidateResultBudget(heap: Heap, v: Value, maximum: nat) returns (ok: bool)
    ensures ok <==> Accepted(heap, v, maximum)
  {
    var b := new Budget(heap, maximum);
    ok := b.Visit(v, 0);
  }

  ghost predicate Accepted(heap: Heap, v: Value, maximum: nat) {
    Shallow(heap, v, MaxDepth) && Nodes(heap, v, MaxDepth) <= NodeLimit(maximum) && Bytes(heap, v, MaxDepth) <= maximum
  }

  // ---------------------------------------------------------------------
  // The iteration order of tables does not matter
  // ---------------------------------------------------------------------

  ghost predicate Reordered(heap: Heap, other: Heap) {
    heap.Keys == other.Keys && forall id :: id in heap ==> multiset(heap[id]) == multiset(other[id])
  }

  lemma RemoveOne(fs: seq<Entry>, k: nat)
    requires k < |fs|
    ensures multiset(fs) == multiset(fs[..k] + fs[k + 1..]) + multiset{fs[k]}
  {
    assert fs == fs[..k] + [fs[k]] + fs[k + 1..];
  }

  lemma CancelOne(a: multiset<Entry>, b: multiset<Entry>, e: Entry)
    requires a + multiset{e} == b + multiset{e}
    ensures a == b
  {
    assert a == (a + multiset{e}) - multiset{e};
    assert b == (b + multiset{e}) - multiset{e};
  }

  lemma RemoveBoth(es: seq<Entry>, fs: seq<Entry>, k: nat)
    requires multiset(es) == multiset(fs) && es != [] && k < |fs| && fs[k] == es[|es| - 1]
    ensures multiset(es[..|es| - 1]) == multiset(fs[..k] + fs[k + 1..])
  {
    var n := |es| - 1;
    RemoveOne(es, n);
    RemoveOne(fs, k);
    assert es[..n] + es[n + 1..] == es[..n];
    CancelOne(multiset(es[..n]), multiset(fs[..k] + fs[k + 1..]), fs[k]);
  }

  lemma {:induction false} SumsReordered(heap: Heap, other: Heap, es: seq<Entry>, fs: seq<Entry>, h: nat)
    requires Reordered(heap, other) && multiset(es) == multiset(fs)
    ensures NodesOf(heap, es, h) == NodesOf(other, fs, h) && BytesOf(heap, es, h) == BytesOf(other, fs, h)
    decreases h, 1, |es|
  {
    hide Nodes, Bytes;
    if es == [] {
      assert multiset(fs) == multiset{};
      assert |fs| == |multiset(fs)| == 0;
    } else {
      var n, e := |es| - 1, es[|es| - 1];
      assert e in multiset(es);
      var k :| 0 <= k < |fs| && fs[k] == e;
      var rest := fs[..k] + fs[k + 1..];
      RemoveBoth(es, fs, k);
      SumsReordered(heap, other, es[..n], rest, h);
      SumsRemove(other, fs, k, h);
      ExpansionReordered(heap, other, e.key, h);
      ExpansionReordered(heap, other, e.item, h);
    }
  }

  lemma {:induction false} SumsRemove(heap: Heap, es: seq<Entry>, k: nat, h: nat)
    requires k < |es|
    ensures var rest := es[..k] + es[k + 1..];
            && NodesOf(heap, es, h) == NodesOf(heap, rest, h) + Nodes(heap, es[k].key, h) + Nodes(heap, es[k].item, h)
            && BytesOf(heap, es, h) == BytesOf(heap, rest, h) + Bytes(heap, es[k].key, h) + Bytes(heap, es[k].item, h)
  {
    hide Nodes, Bytes;
    var n := |es| - 1;
    var rest := es[..k] + es[k + 1..];
    if k == n {
      assert rest == es[..n];
    } else {
      SumsRemove(heap, es[..n], k, h);
      assert rest[..n - 1] == es[..n][..k] + es[..n][k + 1..];
    }
  }

  lemma {:induction false} ExpansionReordered(heap: Heap, other: Heap, v: Value, h: nat)
    requires Reordered(heap, other)
    ensures Nodes(heap, v, h) == Nodes(other, v, h) && Bytes(heap, v, h) == Bytes(other, v, h)
    decreases h, 0
  {
    if h > 0 {
      SumsReordered(heap, other, Entries(heap, v), Entries(other, v), h - 1);
    }
  }

  lemma {:induction false} ShallowReordered(heap: Heap, other: Heap, v: Value, h: nat)
    requires Reordered(heap, other) && Shallow(heap, v, h)
    ensures Shallow(other, v, h)
    decreases h
  {
    var es, fs := Entries(heap, v), Entries(other, v);
    forall k | 0 <= k < |fs| ensures h > 0 && Shallow(other, fs[k].key, h - 1) && Shallow(other, fs[k].item, h - 1) {
      assert fs[k] in multiset(fs);
      assert fs[k] in multiset(es);
      var j :| 0 <= j < |es| && es[j] == fs[k];
      ShallowReordered(heap, other, es[j].key, h - 1);
      ShallowReordered(heap, other, es[j].item, h - 1);
    }
  }

  /** Whatever order the tables are iterated in, the verdict is the same. */
  lemma VerdictReordered(heap: Heap, other: Heap, v: Value, maximum: nat)
    requires Reordered(heap, other)
    ensures Accepted(heap, v, maximum) <==> Accepted(other, v, maximum)
  {
    ExpansionReordered(heap, other, v, MaxDepth);
    if Shallow(heap, v, MaxDepth) {
      ShallowReordered(heap, other, v, MaxDepth);
    } else if Shallow(other, v, MaxDepth) {
      ShallowReordered(other, heap, v, MaxDepth);
    }
  }

  // ---------------------------------------------------------------------
  // After acceptance
  // ---------------------------------------------------------------------

  /** The value has a finite expansion and lies below the tables under visit. */
  ghost predicate Safe(heap: Heap, active: set<nat>, v: Value) {
    (exists h: nat :: Shallow(heap, v, h)) && Inside(heap, active, v)
  }

  lemma AcceptedSafe(heap: Heap, v: Value, maximum: nat)
    requires Accepted(heap, v, maximum)
    ensures Safe(heap, {}, v)
  {
  }

  lemma SafeChild(heap: Heap, active: set<nat>, v: Value, child: Value)
    requires v.Table? && Safe(heap, active, v) && Contains(heap, v, child)
    ensures Safe(heap, active + {v.id}, child)
  {
    InsideChild(heap, active, v, child);
    var h: nat :| Shallow(heap, v, h);
    assert Shallow(heap, child, h - 1);
  }

  /** A walk below an accepted value never comes back to a table under visit. */
  lemma SafeUnvisited(heap: Heap, active: set<nat>, v: Value)
    requires v.Table?
    ensures Safe(heap, active, v) ==> v.id !in active
  {
    if Safe(heap, active, v) && v.id in active {
      var h: nat :| Shallow(heap, v, h);
      CycleIsEndless(heap, active, v, h);
    }
  }
}
