/** What a Lua pattern match is, without search, and that the backtracking search
    finds the first match in priority order or there is none. */
module LuaMatch {
  import opened LuaPattern

  predicate Allowed(suffix: Suffix, k: nat) {
    match suffix
    case Once => k == 1
    case Star => true
    case Plus => k >= 1
    case Minus => true
    case Optional => k <= 1
  }

  predicate AllAccepted(s: string, si: nat, k: nat, e: Elem) {
    si + k <= |s| && forall j :: si <= j < si + k ==> Accepts(e, s[j])
  }

  /** With `choices` repetitions for its repeated items, in order, the pattern
      from `pp` matches the subject from `si` to `end` and leaves the captures
      `out`. */
  ghost predicate Derives(s: string, p: string, si: nat, pp: nat, caps: seq<Slot>, choices: seq<nat>, end: nat,
                          out: seq<Slot>)
    requires Sound(s, si, caps) && pp <= |p|
    decreases |p| - pp
  {
    var item := ItemAt(p, pp);
    if item.Finish? then choices == [] && end == si && out == caps
    else if item.AtEnd? then si == |s| && choices == [] && end == si && out == caps
    else if item.Repeat? && item.suffix == Once then
      AllAccepted(s, si, 1, item.elem) && Derives(s, p, si + 1, pp + item.width, caps, choices, end, out)
    else if item.Repeat? then
      && choices != [] && Allowed(item.suffix, choices[0]) && AllAccepted(s, si, choices[0], item.elem)
      && Derives(s, p, si + choices[0], pp + item.width, caps, choices[1..], end, out)
    else
      var m := Advance(s, item, si, caps);
      m.Go? && Derives(s, p, m.si, pp + Width(item), m.caps, choices, end, out)
  }

  /** `a` comes no later than `b` in priority order: at the first repeated item
      where they differ, the longer one does, or for `-` the shorter one. */
  ghost predicate Preferred(p: string, pp: nat, a: seq<nat>, b: seq<nat>)
    requires pp <= |p|
    decreases |p| - pp
  {
    var item := ItemAt(p, pp);
    if item.Finish? || item.AtEnd? || item.Bad? || a == [] || b == [] then a == b
    else if item.Repeat? && item.suffix != Once then
      if a[0] == b[0] then Preferred(p, pp + item.width, a[1..], b[1..])
      else if item.suffix == Minus then a[0] < b[0] else a[0] > b[0]
    else Preferred(p, pp + Width(item), a, b)
  }

  lemma AcceptedIsRun(s: string, si: nat, k: nat, e: Elem)
    requires si <= |s|
    ensures AllAccepted(s, si, k, e) <==> k <= Run(s, si, e)
  {
    if k > Run(s, si, e) && si + k <= |s| {
      assert !Accepts(e, s[si + Run(s, si, e)]);
    }
  }

  /** What the search from a position promises, against any other derivation. */
  ghost predicate Right(s: string, p: string, si: nat, pp: nat, caps: seq<Slot>, r: Outcome, choices: seq<nat>,
                        end: nat, out: seq<Slot>)
    requires Sound(s, si, caps) && pp <= |p|
  {
    && (r.Matched? ==> Derives(s, p, si, pp, caps, r.taken, r.end, r.caps))
    && (Derives(s, p, si, pp, caps, choices, end, out) ==>
          !r.NoMatch? && (r.Matched? ==> Preferred(p, pp, r.taken, choices)))
  }

  lemma {:induction false} SearchRight(s: string, p: string, si: nat, pp: nat, caps: seq<Slot>, depth: nat,
                                       choices: seq<nat>, end: nat, out: seq<Slot>)
    requires Sound(s, si, caps) && pp <= |p|
    ensures Right(s, p, si, pp, caps, Search(s, p, si, pp, caps, depth), choices, end, out)
    decreases |p| - pp, 0
  {
    hide ItemAt, Run, AllAccepted, Accepts, Advance;
    var item := ItemAt(p, pp);
    if item.Finish? || item.AtEnd? {
    } else if item.Repeat? {
      RepeatRight(s, p, si, pp, caps, depth, choices, end, out);
    } else {
      var m := Advance(s, item, si, caps);
      if m.Go? {
        SearchRight(s, p, m.si, pp + Width(item), m.caps, if Nests(item) then depth + 1 else depth, choices, end, out);
      }
    }
  }

  /** What trying between `lo` and `hi` repetitions promises, against any other
      derivation that uses `k` of them. */
  ghost predicate RightAmong(s: string, p: string, si: nat, pp: nat, caps: seq<Slot>, r: Outcome, lo: nat, hi: nat,
                             fewer: bool,
                             k: nat, rest: seq<nat>, end: nat, out: seq<Slot>)
    requires Sound(s, si, caps) && pp <= |p| && si + hi <= |s|
  {
    && (r.Matched? ==>
          && r.taken != [] && lo <= r.taken[0] <= hi
          && Derives(s, p, si + r.taken[0], pp, caps, r.taken[1..], r.end, r.caps))
    && (lo <= k <= hi && Derives(s, p, si + k, pp, caps, rest, end, out) ==>
          && !r.NoMatch?
          && (r.Matched? ==>
                if r.taken[0] == k then Preferred(p, pp, r.taken[1..], rest)
                else if fewer then r.taken[0] < k else r.taken[0] > k))
  }

  /** One count tried in a nested call. */
  lemma {:induction false} EnterRight(s: string, p: string, si: nat, pp: nat, caps: seq<Slot>, depth: nat, count: nat,
                                      fewer: bool,
                                      k: nat, rest: seq<nat>, end: nat, out: seq<Slot>)
    requires si + count <= |s| && Sound(s, si, caps) && pp <= |p|
    ensures RightAmong(s, p, si, pp, caps, Took(count, Enter(s, p, si + count, pp, caps, depth)), count, count, fewer,
                       k, rest, end, out)
    decreases |p| - pp, 1
  {
    SearchRight(s, p, si + count, pp, caps, depth + 1, rest, end, out);
  }

  lemma {:induction false} LongestRight(s: string, p: string, si: nat, pp: nat, caps: seq<Slot>, depth: nat,
                                        count: nat, least: nat,
                                        k: nat, rest: seq<nat>, end: nat, out: seq<Slot>)
    requires si + count <= |s| && Sound(s, si, caps) && pp <= |p| && least <= count
    ensures RightAmong(s, p, si, pp, caps, Longest(s, p, si, pp, caps, depth, count, least), least, count, false, k,
                       rest, end, out)
    decreases |p| - pp, 2 + count
  {
    EnterRight(s, p, si, pp, caps, depth, count, false, k, rest, end, out);
    if count > least {
      LongestRight(s, p, si, pp, caps, depth, count - 1, least, k, rest, end, out);
    }
  }

  lemma {:induction false} ShortestRight(s: string, p: string, si: nat, pp: nat, caps: seq<Slot>, depth: nat,
                                         count: nat, most: nat,
                                         k: nat, rest: seq<nat>, end: nat, out: seq<Slot>)
    requires si + most <= |s| && Sound(s, si, caps) && pp <= |p| && count <= most
    ensures RightAmong(s, p, si, pp, caps, Shortest(s, p, si, pp, caps, depth, count, most), count, most, true, k,
                       rest, end, out)
    decreases |p| - pp, 2 + most - count
  {
    EnterRight(s, p, si, pp, caps, depth, count, true, k, rest, end, out);
    if count < most {
      ShortestRight(s, p, si, pp, caps, depth, count + 1, most, k, rest, end, out);
    }
  }

  function Fewest(suffix: Suffix): nat { if suffix == Plus then 1 else 0 }

  function Most(suffix: Suffix, run: nat): nat { if suffix == Optional && run > 1 then 1 else run }

  /** No repetition at all, in the same frame. */
  lemma {:induction false} SkipRight(s: string, p: string, si: nat, pp: nat, caps: seq<Slot>, depth: nat, fewer: bool,
                                     k: nat, rest: seq<nat>, end: nat, out: seq<Slot>)
    requires Sound(s, si, caps) && pp <= |p|
    ensures RightAmong(s, p, si, pp, caps, Took(0, Search(s, p, si, pp, caps, depth)), 0, 0, fewer, k, rest, end, out)
    decreases |p| - pp, 1
  {
    hide Derives, Preferred, Search;
    SearchRight(s, p, si, pp, caps, depth, rest, end, out);
  }

  /** One repetition and then none. */
  lemma OnceOrNone(s: string, p: string, si: nat, pp: nat, caps: seq<Slot>, once: Outcome, none: Outcome,
                   k: nat, rest: seq<nat>, end: nat, out: seq<Slot>)
    requires Sound(s, si, caps) && pp <= |p| && si < |s|
    requires RightAmong(s, p, si, pp, caps, once, 1, 1, false, k, rest, end, out)
    requires RightAmong(s, p, si, pp, caps, none, 0, 0, false, k, rest, end, out)
    ensures RightAmong(s, p, si, pp, caps, if once.NoMatch? then none else once, 0, 1, false, k, rest, end, out)
  {
    hide Derives, Preferred;
  }

  /** Without an accepted character only no repetition is left. */
  lemma {:induction false} NoRunRight(s: string, p: string, si: nat, pp: nat, caps: seq<Slot>, depth: nat,
                                      suffix: Suffix,
                                      k: nat, rest: seq<nat>, end: nat, out: seq<Slot>)
    requires Sound(s, si, caps) && pp <= |p| && suffix != Once
    ensures RightAmong(s, p, si, pp, caps, Repeated(s, p, si, pp, caps, depth, suffix, 0), Fewest(suffix),
                       Most(suffix, 0),
                       suffix == Minus, k, rest, end, out)
    decreases |p| - pp, 2
  {
    hide Derives, Preferred, Search, Longest, Shortest, Enter;
    if suffix != Plus {
      SkipRight(s, p, si, pp, caps, depth, suffix == Minus, k, rest, end, out);
    }
  }

  lemma {:induction false} OptionalRight(s: string, p: string, si: nat, pp: nat, caps: seq<Slot>, depth: nat, run: nat,
                                         k: nat, rest: seq<nat>, end: nat, out: seq<Slot>)
    requires Sound(s, si, caps) && pp <= |p| && 0 < run && si + run <= |s|
    ensures RightAmong(s, p, si, pp, caps, Repeated(s, p, si, pp, caps, depth, Optional, run), 0, 1, false, k, rest,
                       end, out)
    decreases |p| - pp, 2
  {
    hide Derives, Preferred, Search, Longest, Shortest, Enter, RightAmong;
    EnterRight(s, p, si, pp, caps, depth, 1, false, k, rest, end, out);
    SkipRight(s, p, si, pp, caps, depth, false, k, rest, end, out);
    OnceOrNone(s, p, si, pp, caps, Took(1, Enter(s, p, si + 1, pp, caps, depth)),
               Took(0, Search(s, p, si, pp, caps, depth)),
               k, rest, end, out);
  }

  /** The repeated item as a whole: all allowed counts are covered. */
  lemma {:induction false} RepeatedRight(s: string, p: string, si: nat, pp: nat, caps: seq<Slot>, depth: nat,
                                         suffix: Suffix, run: nat,
                                         k: nat, rest: seq<nat>, end: nat, out: seq<Slot>)
    requires Sound(s, si, caps) && pp <= |p| && si + run <= |s| && suffix != Once
    ensures RightAmong(s, p, si, pp, caps, Repeated(s, p, si, pp, caps, depth, suffix, run), Fewest(suffix),
                       Most(suffix, run),
                       suffix == Minus, k, rest, end, out)
    decreases |p| - pp, 3 + run
  {
    hide Derives, Preferred, Search, Longest, Shortest, Enter, RightAmong;
    if run == 0 {
      NoRunRight(s, p, si, pp, caps, depth, suffix, k, rest, end, out);
    } else if suffix == Minus {
      ShortestRight(s, p, si, pp, caps, depth, 0, run, k, rest, end, out);
    } else if suffix == Optional {
      OptionalRight(s, p, si, pp, caps, depth, run, k, rest, end, out);
    } else {
      LongestRight(s, p, si, pp, caps, depth, run, Fewest(suffix), k, rest, end, out);
    }
  }

  lemma {:induction false} RepeatRight(s: string, p: string, si: nat, pp: nat, caps: seq<Slot>, depth: nat,
                                       choices: seq<nat>, end: nat, out: seq<Slot>)
    requires Sound(s, si, caps) && pp <= |p| && ItemAt(p, pp).Repeat?
    ensures Right(s, p, si, pp, caps, Search(s, p, si, pp, caps, depth), choices, end, out)
    decreases |p| - pp - ItemAt(p, pp).width, 4 + |s|
  {
    hide ItemAt, Run, AllAccepted, Accepts;
    var item := ItemAt(p, pp);
    var run, next := Run(s, si, item.elem), pp + item.width;
    AcceptedIsRun(s, si, 1, item.elem);
    if item.suffix == Once {
      if run > 0 {
        SearchRight(s, p, si + 1, next, caps, depth, choices, end, out);
      }
    } else {
      var k, rest := if choices == [] then 0 else choices[0], if choices == [] then [] else choices[1..];
      RepeatedRight(s, p, si, next, caps, depth, item.suffix, run, k, rest, end, out);
      AcceptedIsRun(s, si, k, item.elem);
      var r := Search(s, p, si, pp, caps, depth);
      if r.Matched? {
        AcceptedIsRun(s, si, r.taken[0], item.elem);
      }
    }
  }

  /** `luaMatchAt`: unless it raises an error, the matcher reports a match at a
      position exactly when there is one, and it is the first in priority
      order. */
  lemma MatchExact(s: string, p: string, si: nat)
    requires si <= |s|
    ensures var r := Enter(s, p, si, 0, [], 0);
            && (r.Matched? ==> Derives(s, p, si, 0, [], r.taken, r.end, r.caps))
            && (r.Matched? ==> forall choices, end, out | Derives(s, p, si, 0, [], choices, end, out) ::
                  Preferred(p, 0, r.taken, choices))
            && (r.NoMatch? ==> forall choices, end, out :: !Derives(s, p, si, 0, [], choices, end, out))
  {
    forall choices, end, out
      ensures Right(s, p, si, 0, [], Enter(s, p, si, 0, [], 0), choices, end, out)
    {
      SearchRight(s, p, si, 0, [], 1, choices, end, out);
    }
    var r := Enter(s, p, si, 0, [], 0);
    assert Right(s, p, si, 0, [], r, [], 0, []);
    forall choices, end, out | Derives(s, p, si, 0, [], choices, end, out)
      ensures !r.NoMatch? && (r.Matched? ==> Preferred(p, 0, r.taken, choices))
    {
      assert Right(s, p, si, 0, [], r, choices, end, out);
    }
  }

  /** The choices of a derivation determine where it ends and what it captures. */
  lemma {:induction false} DerivesUnique(s: string, p: string, si: nat, pp: nat, caps: seq<Slot>, choices: seq<nat>,
                                         end: nat, out: seq<Slot>, other: nat, others: seq<Slot>)
    requires Sound(s, si, caps) && pp <= |p|
    requires Derives(s, p, si, pp, caps, choices, end, out) && Derives(s, p, si, pp, caps, choices, other, others)
    ensures end == other && out == others
    decreases |p| - pp
  {
    hide ItemAt, Accepts, Advance;
    var item := ItemAt(p, pp);
    if item.Repeat? {
      var k, rest := if item.suffix == Once then 1 else choices[0], if item.suffix == Once then choices
          else choices[1..];
      DerivesUnique(s, p, si + k, pp + item.width, caps, rest, end, out, other, others);
    } else if !item.Finish? && !item.AtEnd? {
      var m := Advance(s, item, si, caps);
      DerivesUnique(s, p, m.si, pp + Width(item), m.caps, choices, end, out, other, others);
    }
  }

  /** Priority is an order: two lists that are each no later than the other are
      the same, so the first match is unique. */
  lemma {:induction false} PreferredAntisymmetric(p: string, pp: nat, a: seq<nat>, b: seq<nat>)
    requires pp <= |p| && Preferred(p, pp, a, b) && Preferred(p, pp, b, a)
    ensures a == b
    decreases |p| - pp
  {
    hide ItemAt;
    var item := ItemAt(p, pp);
    if !item.Finish? && !item.AtEnd? && !item.Bad? && a != [] && b != [] {
      if item.Repeat? && item.suffix != Once {
        PreferredAntisymmetric(p, pp + item.width, a[1..], b[1..]);
        assert a == [a[0]] + a[1..] && b == [b[0]] + b[1..];
      } else {
        PreferredAntisymmetric(p, pp + Width(item), a, b);
      }
    }
  }

  /** The pattern matches at a position. */
  ghost predicate MatchesAt(s: string, p: string, si: nat)
    requires si <= |s|
  {
    exists choices, end, out :: Derives(s, p, si, 0, [], choices, end, out)
  }

  /** A match at a position that no other match there comes before. */
  ghost predicate FirstAt(s: string, p: string, si: nat, end: nat, out: seq<Slot>)
    requires si <= |s|
  {
    exists taken ::
      && Derives(s, p, si, 0, [], taken, end, out)
      && forall choices, other, others | Derives(s, p, si, 0, [], choices, other, others) ::
          Preferred(p, 0, taken, choices)
  }

  /** `%bxy` ends at the first position where as many `y` as `x` were seen, and
      fails exactly when the run does not start with `x` or never closes; `%bxx`
      ends behind the next `x`. */
  lemma BalanceExact(s: string, si: nat, open: char, close: char)
    requires si <= |s|
    ensures match BalanceEnd(s, si, open, close)
            case Some(end) =>
              && si < end <= |s| && s[si] == open
              && (if open == close then si + 1 < end && s[end - 1] == open && open !in s[si + 1..end - 1]
                  else Net(s, si, end, open, close) == 0 && forall k :: si < k < end ==> Net(s, si, k, open, close) > 0)
            case None =>
              si < |s| && s[si] == open ==>
                if open == close then open !in s[si + 1..]
                else forall k :: si < k <= |s| ==> Net(s, si, k, open, close) > 0
  {
    if si < |s| && s[si] == open {
      if open == close {
        NextOfExact(s, si + 1, close);
      } else {
        assert Net(s, si, si + 1, open, close) == 1;
        BalanceFromExact(s, si, si + 1, 1, open, close);
      }
    }
  }
}
