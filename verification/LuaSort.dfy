/** `table.sort` (internal/merge/lua_sort.go): an in-place quicksort that stays
    in range, terminates and keeps a permutation under any comparator. */
module LuaSort {

  ghost predicate Order(lt: (int, int) -> bool) {
    && (forall a :: !lt(a, a))
    && (forall a, b, c :: lt(a, b) && lt(b, c) ==> lt(a, c))
    && (forall a, b, c :: !lt(b, a) && !lt(c, b) ==> !lt(c, a))
  }

  lemma Asymmetric(lt: (int, int) -> bool, a: int, b: int)
    requires Order(lt) && lt(a, b)
    ensures !lt(b, a)
  {
    assert !lt(a, a);
  }

  lemma NotLessTrans(lt: (int, int) -> bool, a: int, b: int, c: int)
    requires Order(lt) && !lt(b, a) && !lt(c, b)
    ensures !lt(c, a)
  {
  }

  ghost predicate Sorted(s: seq<int>, lt: (int, int) -> bool, first: int, last: int)
    requires 0 <= first && last < |s|
  {
    forall i, j :: first <= i < j <= last ==> !lt(s[j], s[i])
  }

  /** `t` holds the same values as `s` between `first` and `last`, in some order,
      and is the same elsewhere. */
  ghost predicate Permuted(s: seq<int>, t: seq<int>, first: int, last: int) {
    && |s| == |t| && 0 <= first <= last + 1 <= |s|
    && (forall i :: 0 <= i < |s| && (i < first || i > last) ==> t[i] == s[i])
    && multiset(s[first..last + 1]) == multiset(t[first..last + 1])
  }

  lemma PermutedSelf(s: seq<int>, first: int, last: int)
    requires 0 <= first <= last + 1 <= |s|
    ensures Permuted(s, s, first, last)
  {
  }

  lemma PermutedTrans(s: seq<int>, t: seq<int>, u: seq<int>, first: int, last: int)
    requires Permuted(s, t, first, last) && Permuted(t, u, first, last)
    ensures Permuted(s, u, first, last)
  {
  }

  /** A change within a smaller range is a change within a larger one. */
  lemma PermutedWiden(s: seq<int>, t: seq<int>, first: int, last: int, from: int, to: int)
    requires Permuted(s, t, first, last) && 0 <= from <= first && last <= to < |s|
    ensures Permuted(s, t, from, to)
  {
    assert s[from..to + 1] == s[from..first] + s[first..last + 1] + s[last + 1..to + 1];
    assert t[from..to + 1] == t[from..first] + t[first..last + 1] + t[last + 1..to + 1];
    assert s[from..first] == t[from..first];
    assert s[last + 1..to + 1] == t[last + 1..to + 1];
  }

  lemma PermutedMember(s: seq<int>, t: seq<int>, first: int, last: int, i: int) returns (j: int)
    requires Permuted(s, t, first, last) && first <= i <= last
    ensures first <= j <= last && s[j] == t[i]
  {
    assert t[i] == t[first..last + 1][i - first];
    assert t[i] in multiset(t[first..last + 1]);
    assert t[i] in s[first..last + 1];
    var k :| 0 <= k < |s[first..last + 1]| && s[first..last + 1][k] == t[i];
    j := first + k;
  }

  function Swapped(s: seq<int>, i: int, j: int): seq<int>
    requires 0 <= i < |s| && 0 <= j < |s|
  {
    s[i := s[j]][j := s[i]]
  }

  lemma SwappedAt(s: seq<int>, i: int, j: int)
    requires 0 <= i < |s| && 0 <= j < |s|
    ensures |Swapped(s, i, j)| == |s| && Swapped(s, i, j)[i] == s[j] && Swapped(s, i, j)[j] == s[i]
    ensures forall k :: 0 <= k < |s| && k != i && k != j ==> Swapped(s, i, j)[k] == s[k]
  {
  }

  lemma SwappedSame(s: seq<int>, i: int, j: int)
    requires 0 <= i < |s| && 0 <= j < |s|
    ensures multiset(Swapped(s, i, j)) == multiset(s)
  {
  }

  lemma SwappedPermuted(s: seq<int>, i: int, j: int, first: int, last: int)
    requires 0 <= first <= i <= j <= last < |s|
    ensures Permuted(s, Swapped(s, i, j), first, last)
  {
    SwappedAt(s, i, j);
    var part := s[first..last + 1];
    SwappedSame(part, i - first, j - first);
    assert Swapped(s, i, j)[first..last + 1] == Swapped(part, i - first, j - first);
  }

  /** Nothing up to `low` is above the pivot and nothing from `high` is below. */
  ghost predicate Split(s: seq<int>, lt: (int, int) -> bool, first: int, last: int, low: int, high: int, pivot: int)
    requires 0 <= first && last < |s|
  {
    && (forall i :: first <= i <= low && i <= last ==> !lt(pivot, s[i]))
    && (forall j :: high <= j <= last && j >= first ==> !lt(s[j], pivot))
  }

  lemma LeftOfRise(s: seq<int>, lt: (int, int) -> bool, first: int, last: int, low: int, high: int, pivot: int,
                   lower: int)
    requires Order(lt) && 0 <= first <= low < lower < last < |s| && Split(s, lt, first, last, low, high, pivot)
    requires forall i :: low < i < lower ==> lt(s[i], pivot)
    ensures forall i :: first <= i < lower ==> !lt(pivot, s[i])
  {
    forall i | low < i < lower ensures !lt(pivot, s[i]) {
      Asymmetric(lt, s[i], pivot);
    }
  }

  /** After both inner loops: swapping keeps the split, or finishes it. */
  lemma Crossed(s: seq<int>, lt: (int, int) -> bool, first: int, last: int, low: int, high: int, pivot: int,
                lower: int, upper: int)
    requires Order(lt) && 0 <= first <= low < lower <= last - 1 < last < |s| && first <= upper < high <= last - 1
    requires Split(s, lt, first, last, low, high, pivot) && s[last - 1] == pivot
    requires forall i :: first <= i < lower ==> !lt(pivot, s[i])
    requires !lt(s[lower], pivot) && !lt(pivot, s[upper]) && forall j :: upper < j < high ==> lt(pivot, s[j])
    ensures lower <= upper ==> Split(Swapped(s, lower, upper), lt, first, last, lower, upper, pivot)
    ensures upper < lower ==> Split(Swapped(s, lower, last - 1), lt, first, last, lower - 1, lower + 1, pivot)
  {
    forall j | upper < j < high ensures !lt(s[j], pivot) {
      Asymmetric(lt, pivot, s[j]);
    }
    forall j | upper < j <= last ensures !lt(s[j], pivot) {
    }
  }

  /** Every pair that is not inside `first` to `last` is in order. */
  ghost predicate Outer(s: seq<int>, lt: (int, int) -> bool, from: int, to: int, first: int, last: int)
    requires 0 <= from && to < |s|
  {
    forall i, j :: from <= i < j <= to && (i < first || j > last) ==> !lt(s[j], s[i])
  }

  lemma OuterKept(s: seq<int>, t: seq<int>, lt: (int, int) -> bool, from: int, to: int, first: int, last: int)
    requires 0 <= from <= first && last <= to < |s| && Permuted(s, t, first, last)
        && Outer(s, lt, from, to, first, last)
    ensures Outer(t, lt, from, to, first, last)
  {
    forall i, j | from <= i < j <= to && (i < first || j > last) ensures !lt(t[j], t[i]) {
      var k, l := i, j;
      if first <= i <= last {
        k := PermutedMember(s, t, first, last, i);
      }
      if first <= j <= last {
        l := PermutedMember(s, t, first, last, j);
      }
      assert !lt(s[l], s[k]);
    }
  }

  lemma OuterSorted(s: seq<int>, lt: (int, int) -> bool, from: int, to: int, first: int, last: int)
    requires 0 <= from <= first && last <= to < |s| && Outer(s, lt, from, to, first, last) && Sorted(s, lt, first, last)
    ensures Sorted(s, lt, from, to)
  {
  }

  lemma SplitKept(s: seq<int>, t: seq<int>, lt: (int, int) -> bool, first: int, last: int, lower: int, left: bool)
    requires 0 <= first < lower < last < |s| && Split(s, lt, first, last, lower - 1, lower + 1, s[lower])
    requires if left then Permuted(s, t, first, lower - 1) else Permuted(s, t, lower + 1, last)
    ensures t[lower] == s[lower] && Split(t, lt, first, last, lower - 1, lower + 1, t[lower])
  {
    forall i | first <= i < lower ensures !lt(t[lower], t[i]) {
      var k := i;
      if left {
        k := PermutedMember(s, t, first, lower - 1, i);
      }
      assert !lt(s[lower], s[k]);
    }
    forall j | lower < j <= last ensures !lt(t[j], t[lower]) {
      var k := j;
      if !left {
        k := PermutedMember(s, t, lower + 1, last, j);
      }
      assert !lt(s[k], s[lower]);
    }
  }

  /** With one side sorted, only the other side is left. */
  lemma OuterNarrow(s: seq<int>, lt: (int, int) -> bool, from: int, to: int, first: int, last: int, lower: int,
                    left: bool)
    requires Order(lt) && 0 <= from <= first < lower < last <= to < |s| && Outer(s, lt, from, to, first, last)
    requires Split(s, lt, first, last, lower - 1, lower + 1, s[lower])
    requires if left then Sorted(s, lt, first, lower - 1) else Sorted(s, lt, lower + 1, last)
    ensures if left then Outer(s, lt, from, to, lower + 1, last) else Outer(s, lt, from, to, first, lower - 1)
  {
    forall i, j | first <= i <= lower <= j <= last && i < j ensures !lt(s[j], s[i]) {
      if i < lower < j {
        NotLessTrans(lt, s[i], s[lower], s[j]);
      }
    }
  }

  function Pow2(n: nat): nat { if n == 0 then 1 else 2 * Pow2(n - 1) }

  datatype Verdict = Less | NotLess | Failed

  class Sorter {
    /** Index 0 is not part of the table. */
    const table: array<int>
    const lt: (int, int) -> bool
    const honest: bool

    constructor (table: array<int>, lt: (int, int) -> bool, honest: bool)
      ensures this.table == table && this.lt == lt && this.honest == honest
    {
      this.table, this.lt, this.honest := table, lt, honest;
    }

    /** The comparator: any answer at all, or an error, unless it is honest. */
    method Compare(x: int, y: int) returns (v: Verdict)
      ensures honest ==> v == if lt(x, y) then Less else NotLess
    {
      v := *;
      if honest {
        v := if lt(x, y) then Less else NotLess;
      }
    }

    method Swap(i: int, j: int, ghost first: int, ghost last: int)
      requires 0 <= first <= i <= j <= last < table.Length
      modifies table
      ensures table[..] == Swapped(old(table[..]), i, j) && table[i] == old(table[j]) && table[j] == old(table[i])
      ensures forall k :: 0 <= k < table.Length && k != i && k != j ==> table[k] == old(table[k])
      ensures Permuted(old(table[..]), table[..], first, last)
    {
      hide Permuted;
      SwappedPermuted(table[..], i, j, first, last);
      var x := table[i];
      table[i] := table[j];
      table[j] := x;
    }

    /** An honest comparator of a strict weak order. */
    ghost predicate Good() { honest && Order(lt) }

    /** Orders the first, middle and last elements. */
    method OrderThree(first: int, middle: int, last: int) returns (ok: bool)
      requires 0 <= first < middle < last < table.Length
      modifies table
      ensures Permuted(old(table[..]), table[..], first, last) && (Good() ==> ok)
      ensures ok && Good() && !old(lt(table[last], table[first])) ==>
        !lt(table[middle], table[first]) && !lt(table[last], table[middle]) && !lt(table[last], table[first])
    {
      var v := Compare(table[middle], table[first]);
      if v == Failed {
        return false;
      }
      if v == Less {
        ghost var x, y, z := table[first], table[middle], table[last];
        Swap(first, middle, first, last);
        if Good() && !lt(z, x) {
          Asymmetric(lt, y, x);
          assert !lt(z, y);
        }
        return true;
      }
      v := Compare(table[last], table[middle]);
      if v == Less {
        if Good() {
          Asymmetric(lt, table[last], table[middle]);
        }
        Swap(middle, last, first, last);
      }
      return v != Failed;
    }

    /** Orders the two ends. */
    method OrderEnds(first: int, last: int) returns (ok: bool)
      requires 0 <= first < last < table.Length
      modifies table
      ensures Permuted(old(table[..]), table[..], first, last) && (Good() ==> ok && !lt(table[last], table[first]))
    {
      var v := Compare(table[last], table[first]);
      if v == Less {
        Swap(first, last, first, last);
      }
      return v != Failed;
    }

    /** The first inner loop: the next element not less than the pivot. */
    method Rise(from: int, last: int, pivot: int) returns (ok: bool, lower: int)
      requires 0 <= from < last - 1 < table.Length
      ensures from < lower <= last - 1
      ensures Good() && table[last - 1] == pivot ==> ok
      ensures ok && Good() ==> !lt(table[lower], pivot) && forall i :: from < i < lower ==> lt(table[i], pivot)
    {
      lower := from + 1;
      while true
        invariant from < lower <= last - 1
        invariant Good() ==> forall i :: from < i < lower ==> lt(table[i], pivot)
        decreases last - lower
      {
        var v := Compare(table[lower], pivot);
        if v == NotLess {
          return true, lower;
        }
        if v == Failed || lower == last - 1 {
          return false, lower;
        }
        lower := lower + 1;
      }
    }

    /** The second inner loop: the next element, downwards, that the pivot is not
        less than. */
    method Fall(first: int, from: int, lower: int, pivot: int) returns (ok: bool, upper: int)
      requires 0 <= first < from < table.Length && first < lower <= table.Length
      ensures first <= upper < from
      ensures Good() && (forall i :: first <= i < lower ==> !lt(pivot, table[i])) ==> ok
      ensures ok && Good() ==> !lt(pivot, table[upper]) && forall j :: upper < j < from ==> lt(pivot, table[j])
    {
      upper := from - 1;
      while true
        invariant first <= upper < from
        invariant Good() ==> forall j :: upper < j < from ==> lt(pivot, table[j])
        decreases upper
      {
        var v := Compare(pivot, table[upper]);
        if v == NotLess {
          return true, upper;
        }
        if v == Failed || upper < lower {
          return false, upper;
        }
        upper := upper - 1;
      }
    }

    /** Both inner loops. */
    method Meet(first: int, last: int, low: int, high: int, pivot: int) returns (ok: bool, lower: int, upper: int)
      requires 0 <= first <= low <= high <= last - 1 < last < table.Length && low < last - 1 && first < high
      requires table[last - 1] == pivot && (Good() ==> Split(table[..], lt, first, last, low, high, pivot))
      ensures low < lower <= last - 1 && (Good() ==> ok) && (ok ==> first <= upper < high)
      ensures ok && Good() && upper < lower ==>
        Split(Swapped(table[..], lower, last - 1), lt, first, last, lower - 1, lower + 1, pivot)
      ensures ok && Good() && lower <= upper ==>
        Split(Swapped(table[..], lower, upper), lt, first, last, lower, upper, pivot)
    {
      hide Split, Order;
      ok, lower := Rise(low, last, pivot);
      if !ok {
        return ok, lower, high;
      }
      if Good() {
        LeftOfRise(table[..], lt, first, last, low, high, pivot, lower);
      }
      ok, upper := Fall(first, high, lower, pivot);
      if ok && Good() {
        Crossed(table[..], lt, first, last, low, high, pivot, lower, upper);
      }
    }

    /** One pass of the outer loop: both inner loops and the swap after them. */
    method PartitionStep(first: int, last: int, low: int, high: int, pivot: int)
      returns (ok: bool, lower: int, upper: int)
      requires 0 <= first <= low <= high <= last - 1 < last < table.Length && low < last - 1 && first < high
      requires table[last - 1] == pivot && (Good() ==> Split(table[..], lt, first, last, low, high, pivot))
      modifies table
      ensures Permuted(old(table[..]), table[..], first, last) && (Good() ==> ok)
      ensures ok ==> low < lower <= last - 1 && first <= upper < high
      ensures ok && upper < lower ==>
        table[lower] == pivot && (Good() ==> Split(table[..], lt, first, last, lower - 1, lower + 1, pivot))
      ensures ok && lower <= upper ==>
        table[last - 1] == pivot && (Good() ==> Split(table[..], lt, first, last, lower, upper, pivot))
    {
      hide Permuted, Split, Good, Swapped;
      PermutedSelf(table[..], first, last);
      ok, lower, upper := Meet(first, last, low, high, pivot);
      if !ok {
        return;
      }
      if upper < lower {
        Swap(lower, last - 1, first, last);
      } else {
        Swap(lower, upper, first, last);
      }
    }

    /** Moves the pivot to the place where it splits the range. */
    method Partition(first: int, middle: int, last: int) returns (ok: bool, lower: int)
      requires 0 <= first < middle < last - 1 < table.Length - 1
      requires Good() ==> !lt(table[middle], table[first]) && !lt(table[last], table[middle])
      modifies table
      ensures Permuted(old(table[..]), table[..], first, last) && (Good() ==> ok)
      ensures ok ==> first < lower < last
      ensures ok && Good() ==> Split(table[..], lt, first, last, lower - 1, lower + 1, table[lower])
    {
      var pivot := table[middle];
      Swap(middle, last - 1, first, last);
      lower := first;
      var upper := last - 1;
      while true
        invariant first <= lower <= upper <= last - 1 && lower < last - 1 && first < upper
        invariant Permuted(old(table[..]), table[..], first, last) && table[last - 1] == pivot
        invariant Good() ==> Split(table[..], lt, first, last, lower, upper, pivot)
        decreases upper - lower
      {
        hide Permuted, Split, Order;
        ghost var s := table[..];
        ok, lower, upper := PartitionStep(first, last, lower, upper, pivot);
        PermutedTrans(old(table[..]), s, table[..], first, last);
        if !ok || upper < lower {
          return;
        }
      }
    }

    /** One round of the sorting loop, before the recursion: the range is sorted
        (`lower` is 0), or `lower` splits it. */
    method Round(first: int, last: int) returns (ok: bool, lower: int)
      requires 1 <= first < last < table.Length
      modifies table
      ensures Permuted(old(table[..]), table[..], first, last) && (Good() ==> ok)
      ensures ok && lower == 0 && Good() ==> Sorted(table[..], lt, first, last)
      ensures ok && lower != 0 ==> first < lower < last && last - first >= 3
      ensures ok && lower != 0 && Good() ==> Split(table[..], lt, first, last, lower - 1, lower + 1, table[lower])
    {
      hide Permuted, Order, Split;
      ghost var s := table[..];
      lower := 0;
      ok := OrderEnds(first, last);
      if !ok || last - first == 1 {
        return;
      }
      ghost var t, middle := table[..], (first + last) / 2;
      ok := OrderThree(first, (first + last) / 2, last);
      PermutedTrans(s, t, table[..], first, last);
      if !ok || last - first == 2 {
        return;
      }
      t := table[..];
      ok, lower := Partition(first, (first + last) / 2, last);
      PermutedTrans(s, t, table[..], first, last);
    }

    /** Sorts the smaller side of a split range in a nested call. */
    method SortSide(ghost from: int, ghost to: int, first: int, last: int, lower: int, left: bool)
      returns (ok: bool, ghost nested: nat)
      requires 1 <= from <= first < lower < last <= to < table.Length && last - first >= 3
      requires left <==> lower - first < last - lower
      requires Good() ==> Outer(table[..], lt, from, to, first, last)
      requires Good() ==> Split(table[..], lt, first, last, lower - 1, lower + 1, table[lower])
      modifies table
      ensures Permuted(old(table[..]), table[..], from, to)
      ensures Good() ==> ok
      ensures Good() ==> if left then Outer(table[..], lt, from, to, lower + 1, last)
          else Outer(table[..], lt, from, to, first, lower - 1)
      ensures Pow2(nested + 1) <= last - first + 1
      decreases last - first, 0
    {
      hide Permuted, Order, Split, Outer, Sorted;
      ghost var s := table[..];
      ghost var low, high := if left then first else lower + 1, if left then lower - 1 else last;
      if left {
        ok, nested := Sort(first, lower - 1);
      } else {
        ok, nested := Sort(lower + 1, last);
      }
      PermutedWiden(s, table[..], low, high, from, to);
      if Good() {
        PermutedWiden(s, table[..], low, high, first, last);
        OuterKept(s, table[..], lt, from, to, first, last);
        SplitKept(s, table[..], lt, first, last, lower, left);
        OuterNarrow(table[..], lt, from, to, first, last, lower, left);
      }
    }

    /** `sort`: stays in range, terminates and permutes the range under any
        comparator; sorts it and raises no error for a strict weak order; and
        nests at most logarithmically deep. */
    method Sort(from: int, to: int) returns (ok: bool, ghost depth: nat)
      requires 1 <= from <= to + 1 <= table.Length
      modifies table
      ensures Permuted(old(table[..]), table[..], from, to)
      ensures Good() ==> ok && Sorted(table[..], lt, from, to)
      ensures Pow2(depth) <= (if from < to then to - from + 1 else 1)
      decreases 1 + to - from, 1
    {
      PermutedSelf(table[..], from, to);
      var first, last := from, to;
      ok, depth := true, 0;
      while first < last
        invariant from <= first && last <= to && first <= last + 1 && ok
        invariant Permuted(old(table[..]), table[..], from, to)
        invariant Good() ==> Outer(table[..], lt, from, to, first, last)
        invariant Pow2(depth) <= (if from < to then to - from + 1 else 1)
        decreases last - first
      {
        hide Permuted, Order, Split, Outer, Sorted;
        ghost var s := table[..];
        var lower;
        ok, lower := Round(first, last);
        PermutedWiden(s, table[..], first, last, from, to);
        PermutedTrans(old(table[..]), s, table[..], from, to);
        if !ok {
          return;
        }
        if Good() {
          OuterKept(s, table[..], lt, from, to, first, last);
        }
        if lower == 0 {
          if Good() {
            OuterSorted(table[..], lt, from, to, first, last);
          }
          return;
        }
        ghost var nested;
        if lower - first < last - lower {
          ok, nested := SortSide(from, to, first, last, lower, true);
          first := lower + 1;
        } else {
          ok, nested := SortSide(from, to, first, last, lower, false);
          last := lower - 1;
        }
        PermutedTrans(old(table[..]), s, table[..], from, to);
        depth := if depth < nested + 1 then nested + 1 else depth;
        if !ok {
          return;
        }
      }
    }
  }
}
