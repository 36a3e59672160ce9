/** The backtracking matcher with its mutable capture stack
    (internal/merge/lua_pattern_matcher.go), proved equal to `LuaPattern.Search`. */
module LuaMatcher {
  import opened Options
  import opened LuaPattern
  import opened LuaMatch

  datatype Result = End(pos: nat) | Fail | Panic(error: Error)

  /** The result that reports an outcome of the search. */
  function Report(r: Outcome): Result {
    match r
    case Matched(end, _, _) => End(end)
    case NoMatch => Fail
    case Raised(e) => Panic(e)
  }

  /** An outcome without the list of choices. */
  function Bare(r: Outcome): Outcome { if r.Matched? then r.(taken := []) else r }

  // ---------------------------------------------------------------------
  // Parsing
  // ---------------------------------------------------------------------

  lemma SetElemsNext(body: string, i: nat)
    requires i < |body|
    ensures SetElems(body, i) ==
            if body[i] == '%' && i + 1 < |body| then [Escaped(body[i + 1])] + SetElems(body, i + 2)
            else if i + 2 < |body| && body[i + 1] == '-' then [Between(body[i], body[i + 2])] + SetElems(body, i + 3)
            else [Literal(body[i])] + SetElems(body, i + 1)
  {
  }

  lemma Regroup(a: seq<Elem>, e: Elem, b: seq<Elem>)
    ensures a + ([e] + b) == (a + [e]) + b
  {
  }

  method ParseCharSetElems(body: string) returns (elems: seq<Elem>)
    ensures elems == SetElems(body, 0)
  {
    elems := [];
    var i := 0;
    while i < |body|
      invariant 0 <= i <= |body| && elems + SetElems(body, i) == SetElems(body, 0)
    {
      hide Escaped, SetElems;
      SetElemsNext(body, i);
      var elem, width := Literal(body[i]), 1;
      if body[i] == '%' && i + 1 < |body| {
        elem, width := Escaped(body[i + 1]), 2;
      } else if i + 2 < |body| && body[i + 1] == '-' {
        elem, width := Between(body[i], body[i + 2]), 3;
      }
      Regroup(elems, elem, SetElems(body, i + width));
      elems := elems + [elem];
      i := i + width;
    }
  }

  method ParseCharSetAt(p: string, pp: nat) returns (r: Parsed)
    requires pp < |p| && p[pp] == '['
    ensures r == ParseSet(p, pp)
  {
    var negated, start := false, pp + 1;
    if start < |p| && p[start] == '^' {
      negated, start := true, start + 1;
    }
    var end := start;
    if end < |p| && p[end] == ']' {
      end := end + 1;
    }
    while end < |p| && p[end] != ']'
      invariant start <= end <= |p| && SetClose(p, end) == SetClose(p, SetScan(p, pp))
    {
      if p[end] == '%' && end + 1 < |p| {
        end := end + 2;
      } else {
        end := end + 1;
      }
    }
    if end >= |p| {
      return Malformed(MissingBracket);
    }
    var elems := ParseCharSetElems(p[start..end]);
    return Parsed(CharSet(elems, negated), end - pp + 1);
  }

  method GetPatternElem(p: string, pp: nat) returns (r: Parsed)
    requires pp < |p|
    ensures r == ParseElem(p, pp)
  {
    if p[pp] == '%' {
      return if pp + 1 >= |p| then Malformed(EndsWithPercent) else Parsed(Escaped(p[pp + 1]), 2);
    }
    if p[pp] == '[' {
      r := ParseCharSetAt(p, pp);
      return;
    }
    return if p[pp] == '.' then Parsed(AnyChar, 1) else Parsed(Literal(p[pp]), 1);
  }

  /** The tests at the top of the matching loop. */
  method NextItem(p: string, pp: nat) returns (item: Item)
    requires pp <= |p|
    ensures item == ItemAt(p, pp)
  {
    if pp >= |p| {
      return Finish;
    }
    var ch := p[pp];
    if ch == '(' {
      return if pp + 1 < |p| && p[pp + 1] == ')' then Position else Open;
    }
    if ch == ')' {
      return Close;
    }
    if ch == '$' && pp + 1 == |p| {
      return AtEnd;
    }
    if ch == '%' && pp + 1 < |p| {
      var next := p[pp + 1];
      if next == 'b' {
        return if pp + 3 >= |p| then Bad(MissingBalance) else Balance(p[pp + 2], p[pp + 3]);
      }
      if next == 'f' {
        if pp + 2 >= |p| || p[pp + 2] != '[' {
          return Bad(MissingFrontierSet);
        }
        var chars := ParseCharSetAt(p, pp + 2);
        return if chars.Parsed? then Frontier(chars.elem, chars.width + 2) else Bad(chars.error);
      }
      if next == '0' {
        return Bad(InvalidIndex);
      }
      if '1' <= next <= '9' {
        return BackRef(next as int - '1' as int);
      }
    }
    var r := GetPatternElem(p, pp);
    if r.Malformed? {
      return Bad(r.error);
    }
    var suffix := SuffixAt(p, pp + r.width);
    return Repeat(r.elem, suffix, if suffix == Once then r.width else r.width + 1);
  }

  // ---------------------------------------------------------------------
  // Matching
  // ---------------------------------------------------------------------

  /** One more try of a greedy or a lazy repetition. */
  lemma LongestNext(s: string, p: string, si: nat, pp: nat, caps: seq<Slot>, depth: nat, count: nat, least: nat)
    requires si + count <= |s| && Sound(s, si, caps) && pp <= |p| && least <= count
    ensures var r := Enter(s, p, si + count, pp, caps, depth);
            && (!r.NoMatch? ==> Bare(Longest(s, p, si, pp, caps, depth, count, least)) == Bare(r))
            && (r.NoMatch? ==> Longest(s, p, si, pp, caps, depth, count, least) ==
                               if count > least then Longest(s, p, si, pp, caps, depth, count - 1, least) else NoMatch)
  {
  }

  lemma ShortestNext(s: string, p: string, si: nat, pp: nat, caps: seq<Slot>, depth: nat, count: nat, most: nat)
    requires si + most <= |s| && Sound(s, si, caps) && pp <= |p| && count <= most
    ensures var r := Enter(s, p, si + count, pp, caps, depth);
            && (!r.NoMatch? ==> Bare(Shortest(s, p, si, pp, caps, depth, count, most)) == Bare(r))
            && (r.NoMatch? ==> Shortest(s, p, si, pp, caps, depth, count, most) ==
                               if count < most then Shortest(s, p, si, pp, caps, depth, count + 1, most) else NoMatch)
  {
  }

  method MatchBalance(s: string, si: nat, open: char, close: char) returns (r: Option<nat>)
    requires si <= |s|
    ensures r == BalanceEnd(s, si, open, close)
  {
    if si >= |s| || s[si] != open {
      return None;
    }
    if open == close {
      var i := si + 1;
      while i < |s|
        invariant si < i <= |s| && NextOf(s, i, close) == NextOf(s, si + 1, close)
      {
        if s[i] == close {
          return Some(i + 1);
        }
        i := i + 1;
      }
      return None;
    }
    var depth, i := 1, si + 1;
    while i < |s| && depth > 0
      invariant si < i <= |s| && depth >= 0
      invariant BalanceFrom(s, i, depth, open, close) == BalanceFrom(s, si + 1, 1, open, close)
    {
      if s[i] == open {
        depth := depth + 1;
      } else if s[i] == close {
        depth := depth - 1;
      }
      i := i + 1;
    }
    return if depth != 0 then None else Some(i);
  }

  class MatchState {
    const s: string
    const p: string
    const cap: array<Slot>
    var level: nat
    var depth: nat

    ghost predicate Valid()
      reads this, cap
    {
      cap.Length == MaxCaptures && level <= MaxCaptures && depth <= MaxDepth
    }

    ghost function Caps(): seq<Slot>
      requires Valid()
      reads this, cap
    {
      cap[..level]
    }

    constructor (s: string, p: string)
      ensures Valid() && this.s == s && this.p == p && level == 0 && depth == 0 && fresh(cap)
    {
      this.s, this.p, level, depth := s, p, 0, 0;
      cap := new Slot[MaxCaptures](_ => Slot(0, Unfinished));
    }

    method CaptureToClose() returns (r: Option<nat>)
      requires Valid()
      ensures r == ToClose(Caps())
    {
      var l := level;
      while l > 0
        invariant 0 <= l <= level && ToClose(cap[..l]) == ToClose(cap[..level])
      {
        l := l - 1;
        assert cap[..l + 1][..l] == cap[..l];
        if cap[l].extent == Unfinished {
          return Some(l);
        }
      }
      return None;
    }

    method MatchBackRef(si: nat, l: nat) returns (m: Move)
      requires Valid() && Sound(s, si, Caps())
      ensures m == Advance(s, BackRef(l), si, Caps())
    {
      if l >= level || cap[l].extent.Unfinished? {
        return Fault(InvalidIndex);
      }
      if cap[l].extent.Empty? {
        return Stop;
      }
      var start, n := cap[l].start, cap[l].extent.length;
      if si + n > |s| {
        return Stop;
      }
      for offset := 0 to n
        invariant s[si..si + offset] == s[start..start + offset]
      {
        if s[si + offset] != s[start + offset] {
          assert s[si..si + n][offset] != s[start..start + n][offset];
          return Stop;
        }
        assert s[si..si + offset + 1] == s[si..si + offset] + [s[si + offset]];
        assert s[start..start + offset + 1] == s[start..start + offset] + [s[start + offset]];
      }
      return Go(si + n, cap[..level]);
    }

    /** `match`: a failing match leaves the capture level and every slot below it
        as they were. */
    method Match(si: nat, pp: nat) returns (res: Result)
      requires Valid() && Sound(s, si, Caps()) && pp <= |p|
      modifies this`level, this`depth, cap
      ensures Valid() && depth == old(depth)
      ensures var r := Enter(s, p, si, pp, old(Caps()), old(depth));
              res == Report(r) && (r.Matched? ==> Caps() == r.caps) && (r.NoMatch? ==> Caps() == old(Caps()))
      decreases |p| - pp, 6
    {
      if depth == MaxDepth {
        return Panic(TooComplex);
      }
      depth := depth + 1;
      res := MatchFrame(si, pp);
      depth := depth - 1;
    }

    /** The loop of one activation. */
    method MatchFrame(start: nat, from: nat) returns (res: Result)
      requires Valid() && Sound(s, start, Caps()) && from <= |p|
      modifies this`level, this`depth, cap
      ensures Valid() && depth == old(depth)
      ensures var r := Search(s, p, start, from, old(Caps()), depth);
              res == Report(r) && (r.Matched? ==> Caps() == r.caps) && (r.NoMatch? ==> Caps() == old(Caps()))
      decreases |p| - from, 5
    {
      hide Search, Sound;
      ghost var caps := Caps();
      var si: nat, pp: nat := start, from;
      while true
        invariant Valid() && depth == old(depth) && Caps() == caps && from <= pp <= |p| && Sound(s, si, caps)
        invariant Bare(Search(s, p, si, pp, caps, depth)) == Bare(Search(s, p, start, from, caps, depth))
        decreases |p| - pp
      {
        var again;
        res, again := MatchItem(si, pp);
        if again.None? {
          return;
        }
        si, pp := again.value.0, again.value.1;
      }
    }

    /** One pass of the loop: the result, or the positions to go on from. */
    method MatchItem(si: nat, pp: nat) returns (res: Result, again: Option<(nat, nat)>)
      requires Valid() && Sound(s, si, Caps()) && pp <= |p|
      modifies this`level, this`depth, cap
      ensures Valid() && depth == old(depth)
      ensures Continues(old(Caps()), Caps(), si, pp, res, again)
      decreases |p| - pp, 4
    {
      hide ItemAt, Advance, Accepts, Repeated, Run, Enter;
      var item := NextItem(p, pp);
      again := None;
      if item.Finish? || item.AtEnd? {
        return if item.Finish? || si == |s| then End(si) else Fail, None;
      }
      if item.Bad? {
        return Panic(item.error), None;
      }
      if item.Close? {
        res := MatchCloseCapture(si, pp + 1);
        return;
      }
      if Nests(item) {
        res := MatchOpenCapture(si, pp + Width(item), item);
        return;
      }
      if item.Repeat? {
        var to;
        res, to := MatchRepeat(si, pp + item.width, item.elem, item.suffix);
        return res, if to.Some? then Some((to.value, pp + item.width)) else None;
      }
      var m := Step(item, si);
      if m.Stop? {
        return Fail, None;
      }
      if m.Fault? {
        return Panic(m.error), None;
      }
      return Fail, Some((m.si, pp + Width(item)));
    }

    /** A pass from `si` and `pp` either reports the outcome of the search or goes
        on from positions with the same outcome and unchanged captures. */
    ghost predicate Continues(before: seq<Slot>, after: seq<Slot>, si: nat, pp: nat, res: Result,
                              again: Option<(nat, nat)>)
      requires Sound(s, si, before) && pp <= |p|
      reads this
    {
      var r := Search(s, p, si, pp, before, depth);
      if again.Some? then
        var (to, next) := again.value;
        && pp < next <= |p| && after == before && Sound(s, to, before)
        && Bare(Search(s, p, to, next, before, depth)) == Bare(r)
      else
        res == Report(r) && (r.Matched? ==> after == r.caps) && (r.NoMatch? ==> after == before)
    }

    /** A repeated element: the result, or the position to go on from in the same
        activation. */
    method MatchRepeat(si: nat, pp: nat, elem: Elem, suffix: Suffix) returns (res: Result, again: Option<nat>)
      requires Valid() && Sound(s, si, Caps()) && pp <= |p|
      modifies this`level, this`depth, cap
      ensures Valid() && depth == old(depth)
      ensures var caps := old(Caps());
              var r := Repeated(s, p, si, pp, caps, depth, suffix, Run(s, si, elem));
              if again.Some? then
                && Caps() == caps && Sound(s, again.value, caps)
                && Bare(Search(s, p, again.value, pp, caps, depth)) == Bare(r)
              else
                res == Report(r) && (r.Matched? ==> Caps() == r.caps) && (r.NoMatch? ==> Caps() == caps)
      decreases |p| - pp, 8
    {
      hide Search, Longest, Shortest, Accepts;
      if si < |s| && Accepts(elem, s[si]) {
        assert Run(s, si, elem) > 0;
        match suffix {
          case Star =>
            res := MatchGreedy(si, pp, elem, 0);
            return res, None;
          case Plus =>
            res := MatchGreedy(si, pp, elem, 1);
            return res, None;
          case Minus =>
            res := MatchLazy(si, pp, elem);
            return res, None;
          case Optional =>
            res := Match(si + 1, pp);
            return res, if res == Fail then Some(si) else None;
          case Once =>
            return Fail, Some(si + 1);
        }
      }
      assert Run(s, si, elem) == 0;
      return Fail, if suffix == Once || suffix == Plus then None else Some(si);
    }

    /** `%b`, `%f` and back-references, which stay in the same activation. */
    method Step(item: Item, si: nat) returns (m: Move)
      requires Valid() && Sound(s, si, Caps()) && (item.Balance? || item.Frontier? || item.BackRef?)
      ensures m == Advance(s, item, si, Caps()) && (m.Go? ==> m.caps == Caps())
    {
      match item {
        case Balance(open, close) =>
          var end := MatchBalance(s, si, open, close);
          return if end.Some? then Go(end.value, cap[..level]) else Stop;
        case Frontier(chars, _) =>
          return if AtFrontier(s, si, chars) then Go(si, cap[..level]) else Stop;
        case BackRef(l) =>
          m := MatchBackRef(si, l);
      }
    }

    method MatchCloseCapture(si: nat, pp: nat) returns (res: Result)
      requires Valid() && Sound(s, si, Caps()) && pp <= |p|
      modifies this`level, this`depth, cap
      ensures Valid() && depth == old(depth)
      ensures var m := Advance(s, Close, si, old(Caps()));
              && (m.Fault? ==> res == Panic(m.error))
              && (m.Go? ==>
                    var r := Enter(s, p, m.si, pp, m.caps, depth);
                    res == Report(r) && (r.Matched? ==> Caps() == r.caps) && (r.NoMatch? ==> Caps() == old(Caps())))
      decreases |p| - pp, 7
    {
      hide Enter;
      ghost var caps := Caps();
      var l := CaptureToClose();
      if l.None? {
        return Panic(InvalidCapture);
      }
      cap[l.value] := cap[l.value].(extent := Closed(si - cap[l.value].start));
      assert Caps() == ClosedAt(caps, l.value, si);
      assert Advance(s, Close, si, caps) == Go(si, Caps());
      res := Match(si, pp);
      if res == Fail {
        cap[l.value] := cap[l.value].(extent := Unfinished);
        assert Caps() == caps;
      }
    }

    /** `matchOpenCapture` and `matchPosCapture`. */
    method MatchOpenCapture(si: nat, pp: nat, item: Item) returns (res: Result)
      requires Valid() && Sound(s, si, Caps()) && pp <= |p| && (item.Open? || item.Position?)
      modifies this`level, this`depth, cap
      ensures Valid() && depth == old(depth)
      ensures var m := Advance(s, item, si, old(Caps()));
              && (m.Fault? ==> res == Panic(m.error))
              && (m.Go? ==>
                    var r := Enter(s, p, m.si, pp, m.caps, depth);
                    res == Report(r) && (r.Matched? ==> Caps() == r.caps) && (r.NoMatch? ==> Caps() == old(Caps())))
      decreases |p| - pp, 7
    {
      hide Enter;
      if level >= MaxCaptures {
        return Panic(TooManyCaptures);
      }
      cap[level] := Slot(si, if item.Open? then Unfinished else Empty);
      level := level + 1;
      assert Advance(s, item, si, old(Caps())) == Go(si, Caps());
      res := Match(si, pp);
      if res == Fail {
        level := level - 1;
        assert Caps() == old(Caps());
      }
    }

    method MatchGreedy(si: nat, pp: nat, elem: Elem, least: nat) returns (res: Result)
      requires Valid() && Sound(s, si, Caps()) && pp <= |p| && least <= Run(s, si, elem)
      modifies this`level, this`depth, cap
      ensures Valid() && depth == old(depth)
      ensures var r := Longest(s, p, si, pp, old(Caps()), depth, Run(s, si, elem), least);
              res == Report(r) && (r.Matched? ==> Caps() == r.caps) && (r.NoMatch? ==> Caps() == old(Caps()))
      decreases |p| - pp, 7
    {
      hide Longest, Enter, Run, Accepts;
      ghost var caps := Caps();
      var count := 0;
      while si + count < |s| && Accepts(elem, s[si + count])
        invariant 0 <= count <= Run(s, si, elem) && Valid() && depth == old(depth) && Caps() == caps
      {
        count := count + 1;
      }
      assert count == Run(s, si, elem);
      while count >= least
        invariant least - 1 <= count <= Run(s, si, elem) && Valid() && depth == old(depth) && Caps() == caps
        invariant if count >= least
                  then Bare(Longest(s, p, si, pp, caps, depth, count, least))
                       == Bare(Longest(s, p, si, pp, caps, depth, Run(s, si, elem), least))
                  else Longest(s, p, si, pp, caps, depth, Run(s, si, elem), least).NoMatch?
      {
        LongestNext(s, p, si, pp, caps, depth, count, least);
        res := Match(si + count, pp);
        if res != Fail {
          return;
        }
        count := count - 1;
      }
      return Fail;
    }

    method MatchLazy(start: nat, pp: nat, elem: Elem) returns (res: Result)
      requires Valid() && Sound(s, start, Caps()) && pp <= |p|
      modifies this`level, this`depth, cap
      ensures Valid() && depth == old(depth)
      ensures var r := Shortest(s, p, start, pp, old(Caps()), depth, 0, Run(s, start, elem));
              res == Report(r) && (r.Matched? ==> Caps() == r.caps) && (r.NoMatch? ==> Caps() == old(Caps()))
      decreases |p| - pp, 7
    {
      hide Shortest, Enter, Run, Accepts;
      ghost var caps, most := Caps(), Run(s, start, elem);
      var si := start;
      while true
        invariant start <= si <= start + most && Valid() && depth == old(depth) && Caps() == caps
        invariant Bare(Shortest(s, p, start, pp, caps, depth, si - start, most))
                  == Bare(Shortest(s, p, start, pp, caps, depth, 0, most))
        decreases start + most - si
      {
        ShortestNext(s, p, start, pp, caps, depth, si - start, most);
        res := Match(si, pp);
        if res != Fail {
          return;
        }
        if si >= |s| || !Accepts(elem, s[si]) {
          return Fail;
        }
        si := si + 1;
      }
    }

    method GetCaptures() returns (values: seq<CaptureValue>)
      requires Valid() && Sound(s, |s|, Caps())
      ensures |values| == level && forall k :: 0 <= k < level ==> values[k] == ValueOf(s, cap[k])
    {
      values := [];
      for k := 0 to level
        invariant |values| == k && forall j :: 0 <= j < k ==> values[j] == ValueOf(s, cap[j])
      {
        assert cap[k] == Caps()[k];
        values := values + [ValueOf(s, cap[k])];
      }
    }
  }

  /** What a capture gives the caller: its text, or its position counted from 1. */
  datatype CaptureValue = Text(text: string) | At(position: nat) | NotClosed

  function ValueOf(s: string, slot: Slot): CaptureValue
    requires slot.extent.Closed? ==> slot.start + slot.extent.length <= |s|
  {
    match slot.extent
    case Unfinished => NotClosed
    case Empty => At(slot.start + 1)
    case Closed(n) => Text(s[slot.start..slot.start + n])
  }

  datatype Found = Found(start: nat, end: nat, captures: seq<CaptureValue>) | Nothing | Error(error: LuaPattern.Error)

  /** The captures reported for a match. */
  ghost predicate Reports(s: string, out: seq<Slot>, values: seq<CaptureValue>) {
    && |values| == |out|
    && (forall k :: 0 <= k < |out| ==>
          && (out[k].extent.Closed? ==> out[k].start + out[k].extent.length <= |s|)
          && values[k] == ValueOf(s, out[k]))
  }

  method LuaMatchAt(s: string, p: string, si: nat) returns (r: Found)
    requires si <= |s|
    ensures r.Found? ==> r.start == si <= r.end <= |s| && MatchesAt(s, p, si)
    ensures r.Found? ==> exists out :: FirstAt(s, p, si, r.end, out) && Reports(s, out, r.captures)
    ensures r.Nothing? ==> !MatchesAt(s, p, si)
    ensures r.Nothing? <==> Enter(s, p, si, 0, [], 0).NoMatch?
    ensures r.Error? ==> Enter(s, p, si, 0, [], 0) == Raised(r.error)
  {
    var m := new MatchState(s, p);
    assert m.Caps() == [];
    var res := m.Match(si, 0);
    ghost var o := Enter(s, p, si, 0, [], 0);
    MatchExact(s, p, si);
    match res {
      case Fail => return Nothing;
      case Panic(e) => return Error(e);
      case End(end) =>
        var values := m.GetCaptures();
        assert FirstAt(s, p, si, end, o.caps) && Reports(s, o.caps, values);
        return Found(si, end, values);
    }
  }

  /** Where the search starts, from the one-based and possibly negative `init`. */
  function Start(s: string, init: int): int {
    var i := if init < 0 then |s| + init + 1 else init;
    if i < 1 then 0 else i - 1
  }

  /** `luaMatchFrom`: the leftmost match at or after the start, or only at the
      start for a pattern anchored with `^`. */
  method LuaMatchFrom(s: string, pattern: string, init: int) returns (r: Found)
    ensures var anchored := pattern != [] && pattern[0] == '^';
            var p, from := if anchored then pattern[1..] else pattern, Start(s, init);
            && (r.Found? ==>
                  && from <= r.start <= r.end <= |s| && (anchored ==> r.start == from)
                  && (exists out :: FirstAt(s, p, r.start, r.end, out) && Reports(s, out, r.captures))
                  && (forall i :: from <= i < r.start ==> !MatchesAt(s, p, i)))
            && (r.Error? ==> exists i :: from <= i <= |s| && (anchored ==> i == from)
                                         && Enter(s, p, i, 0, [], 0) == Raised(r.error)
                                         && forall k :: from <= k < i ==> !MatchesAt(s, p, k))
            && (r.Nothing? ==> forall i :: from <= i <= (if anchored && from <= |s| then from else |s|) ==>
                !MatchesAt(s, p, i))
  {
    var at := init;
    if at < 0 {
      at := |s| + at + 1;
    }
    if at < 1 {
      at := 1;
    }
    if at > |s| + 1 {
      return Nothing;
    }
    var anchored := |pattern| > 0 && pattern[0] == '^';
    var p := if anchored then pattern[1..] else pattern;
    var from := at - 1;
    if anchored {
      r := LuaMatchAt(s, p, from);
      return;
    }
    for i := from to |s| + 1
      invariant forall k :: from <= k < i ==> !MatchesAt(s, p, k)
    {
      hide *;
      r := LuaMatchAt(s, p, i);
      if !r.Nothing? {
        return;
      }
    }
    return Nothing;
  }
}
