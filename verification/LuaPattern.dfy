/** Lua patterns: their syntax, what a match is, and the backtracking search as
    a function (internal/merge/lua_pattern_matcher.go; section 6.4.1 of the Lua
    5.4 Reference Manual). Bytes are characters. */
module LuaPattern {
  import opened Options

  datatype Error =
    | TooComplex | TooManyCaptures | InvalidCapture | InvalidIndex | EndsWithPercent | MissingBracket
    | MissingBalance | MissingFrontierSet

  // ---------------------------------------------------------------------
  // Single characters
  // ---------------------------------------------------------------------

  datatype Elem =
    | AnyChar
    | Literal(ch: char)
    | Class(class_: char, negated: bool)
    | Between(low: char, high: char)
    | CharSet(elems: seq<Elem>, negated: bool)

  predicate IsLower(b: char) { 'a' <= b <= 'z' }
  predicate IsUpper(b: char) { 'A' <= b <= 'Z' }
  predicate IsDigit(b: char) { '0' <= b <= '9' }
  predicate IsLetter(b: char) { IsLower(b) || IsUpper(b) }
  predicate IsHex(b: char) { IsDigit(b) || 'a' <= b <= 'f' || 'A' <= b <= 'F' }
  predicate IsGraph(b: char) { 32 < b as int < 127 }
  predicate IsControl(b: char) { b as int < 32 || b as int == 127 }
  predicate IsSpace(b: char) { b == ' ' || 9 <= b as int <= 13 }
  predicate IsPunct(b: char) {
    var c := b as int;
    0x21 <= c <= 0x2F || 0x3A <= c <= 0x40 || 0x5B <= c <= 0x60 || 0x7B <= c <= 0x7E
  }

  predicate InClass(class_: char, b: char) {
    match class_
    case 'a' => IsLetter(b)
    case 'd' => IsDigit(b)
    case 's' => IsSpace(b)
    case 'w' => IsLetter(b) || IsDigit(b)
    case 'l' => IsLower(b)
    case 'u' => IsUpper(b)
    case 'c' => IsControl(b)
    case 'g' => IsGraph(b)
    case 'p' => IsPunct(b)
    case 'x' => IsHex(b)
    case 'z' => b == '\0'
    case _ => b == class_
  }

  predicate Accepts(e: Elem, b: char) {
    match e
    case AnyChar => true
    case Literal(ch) => b == ch
    case Class(class_, negated) => InClass(class_, b) != negated
    case Between(low, high) => low <= b <= high
    case CharSet(elems, negated) => (exists k :: 0 <= k < |elems| && Accepts(elems[k], b)) != negated
  }

  // ---------------------------------------------------------------------
  // Syntax
  // ---------------------------------------------------------------------

  const Classes := "adgswlucpxz"

  /** The element that `%` followed by `next` stands for. */
  function Escaped(next: char): Elem {
    if next in Classes then Class(next, false)
    else if IsUpper(next) && (next as int + 32) as char in Classes then Class((next as int + 32) as char, true)
    else Literal(next)
  }

  /** The members of a set between its brackets, from position `i`. */
  function SetElems(body: string, i: nat): seq<Elem>
    requires i <= |body|
    decreases |body| - i
  {
    if i == |body| then []
    else if body[i] == '%' && i + 1 < |body| then [Escaped(body[i + 1])] + SetElems(body, i + 2)
    else if i + 2 < |body| && body[i + 1] == '-' then [Between(body[i], body[i + 2])] + SetElems(body, i + 3)
    else [Literal(body[i])] + SetElems(body, i + 1)
  }

  /** The closing bracket of a set, searching from `i`. */
  function SetClose(p: string, i: nat): (end: nat)
    requires i <= |p|
    ensures i <= end <= |p| && (end < |p| ==> p[end] == ']')
    decreases |p| - i
  {
    if i == |p| || p[i] == ']' then i
    else if p[i] == '%' && i + 1 < |p| then SetClose(p, i + 2)
    else SetClose(p, i + 1)
  }

  /** Where the members of the set at `pp` start: after `[` or `[^`. */
  function SetStart(p: string, pp: nat): nat
    requires pp < |p|
  {
    if pp + 1 < |p| && p[pp + 1] == '^' then pp + 2 else pp + 1
  }

  /** Where to look for the closing bracket: a first `]` is a member. */
  function SetScan(p: string, pp: nat): (i: nat)
    requires pp < |p|
    ensures SetStart(p, pp) <= i <= |p|
  {
    if SetStart(p, pp) < |p| && p[SetStart(p, pp)] == ']' then SetStart(p, pp) + 1 else SetStart(p, pp)
  }

  datatype Parsed = Parsed(elem: Elem, width: nat) | Malformed(error: Error)

  function ParseSet(p: string, pp: nat): (r: Parsed)
    requires pp < |p| && p[pp] == '['
    ensures r.Parsed? ==> 0 < r.width <= |p| - pp
  {
    var end := SetClose(p, SetScan(p, pp));
    if end == |p| then Malformed(MissingBracket)
    else Parsed(CharSet(SetElems(p[SetStart(p, pp)..end], 0), SetStart(p, pp) == pp + 2), end - pp + 1)
  }

  function ParseElem(p: string, pp: nat): (r: Parsed)
    requires pp < |p|
    ensures r.Parsed? ==> 0 < r.width <= |p| - pp
  {
    if p[pp] == '%' then
      if pp + 1 == |p| then Malformed(EndsWithPercent) else Parsed(Escaped(p[pp + 1]), 2)
    else if p[pp] == '[' then ParseSet(p, pp)
    else if p[pp] == '.' then Parsed(AnyChar, 1)
    else Parsed(Literal(p[pp]), 1)
  }

  datatype Suffix = Once | Star | Plus | Minus | Optional

  function SuffixAt(p: string, pp: nat): Suffix {
    if pp >= |p| then Once
    else match p[pp]
         case '*' => Star
         case '+' => Plus
         case '-' => Minus
         case '?' => Optional
         case _ => Once
  }

  /** The next piece of a pattern and the number of characters it takes. */
  datatype Item =
    | Finish
    | Open
    | Position
    | Close
    | AtEnd
    | Balance(open: char, close: char)
    | Frontier(chars: Elem, width: nat)
    | BackRef(index: nat)
    | Repeat(elem: Elem, suffix: Suffix, width: nat)
    | Bad(error: Error)

  function ItemAt(p: string, pp: nat): (item: Item)
    requires pp <= |p|
    ensures pp + Width(item) <= |p| && (Width(item) > 0 || item.Finish? || item.Bad? || item.AtEnd?)
  {
    if pp == |p| then Finish
    else if p[pp] == '(' then if pp + 1 < |p| && p[pp + 1] == ')' then Position else Open
    else if p[pp] == ')' then Close
    else if p[pp] == '$' && pp + 1 == |p| then AtEnd
    else if p[pp] == '%' && pp + 1 < |p| && p[pp + 1] == 'b' then
      if pp + 3 >= |p| then Bad(MissingBalance) else Balance(p[pp + 2], p[pp + 3])
    else if p[pp] == '%' && pp + 1 < |p| && p[pp + 1] == 'f' then
      if pp + 2 >= |p| || p[pp + 2] != '[' then Bad(MissingFrontierSet)
      else match ParseSet(p, pp + 2)
           case Parsed(elem, width) => Frontier(elem, width + 2)
           case Malformed(e) => Bad(e)
    else if p[pp] == '%' && pp + 1 < |p| && p[pp + 1] == '0' then Bad(InvalidIndex)
    else if p[pp] == '%' && pp + 1 < |p| && '1' <= p[pp + 1] <= '9' then BackRef(p[pp + 1] as int - '1' as int)
    else match ParseElem(p, pp)
         case Parsed(elem, width) =>
           var suffix := SuffixAt(p, pp + width);
           Repeat(elem, suffix, if suffix == Once then width else width + 1)
         case Malformed(e) => Bad(e)
  }

  function Width(item: Item): nat {
    match item
    case Finish => 0
    case Open => 1
    case Position => 2
    case Close => 1
    case AtEnd => 0
    case Balance(_, _) => 4
    case Frontier(_, width) => width
    case BackRef(_) => 2
    case Repeat(_, _, width) => width
    case Bad(_) => 0
  }

  // ---------------------------------------------------------------------
  // Captures and the single steps of a match
  // ---------------------------------------------------------------------

  datatype Extent = Unfinished | Empty | Closed(length: nat)

  /** A capture: where it starts and how far it goes; `Empty` is a position
      capture. */
  datatype Slot = Slot(start: nat, extent: Extent)

  const MaxCaptures := 32
  const MaxDepth := 200

  /** The last capture still open. */
  function ToClose(caps: seq<Slot>): (r: Option<nat>)
    ensures r.Some? ==> r.value < |caps| && caps[r.value].extent == Unfinished
    ensures forall k :: (if r.Some? then r.value else -1) < k < |caps| ==> caps[k].extent != Unfinished
  {
    if caps == [] then None
    else if caps[|caps| - 1].extent == Unfinished then Some(|caps| - 1)
    else ToClose(caps[..|caps| - 1])
  }

  function ClosedAt(caps: seq<Slot>, l: nat, si: nat): seq<Slot>
    requires l < |caps|
  {
    caps[l := caps[l].(extent := Closed(if si >= caps[l].start then si - caps[l].start else 0))]
  }

  /** Opening minus closing characters in `s[from..to]`. */
  function Net(s: string, from: nat, to: nat, open: char, close: char): int
    requires from <= to <= |s|
  {
    if from == to then 0
    else Net(s, from, to - 1, open, close)
         + (if s[to - 1] == open then 1 else if s[to - 1] == close then -1 else 0)
  }

  /** The end of a balanced run, with `depth` unclosed before `i`. */
  function BalanceFrom(s: string, i: nat, depth: nat, open: char, close: char): Option<nat>
    requires i <= |s|
    decreases |s| - i
  {
    if depth == 0 then Some(i)
    else if i == |s| then None
    else BalanceFrom(s, i + 1, if s[i] == open then depth + 1 else if s[i] == close then depth - 1
        else depth, open, close)
  }

  function NextOf(s: string, i: nat, ch: char): Option<nat>
    requires i <= |s|
    decreases |s| - i
  {
    if i == |s| then None else if s[i] == ch then Some(i + 1) else NextOf(s, i + 1, ch)
  }

  function BalanceEnd(s: string, si: nat, open: char, close: char): Option<nat>
    requires si <= |s|
  {
    if si == |s| || s[si] != open then None
    else if open == close then NextOf(s, si + 1, close)
    else BalanceFrom(s, si + 1, 1, open, close)
  }

  predicate AtFrontier(s: string, si: nat, chars: Elem)
    requires si <= |s|
  {
    && Accepts(chars, if si < |s| then s[si] else '\0')
    && !Accepts(chars, if si > 0 then s[si - 1] else '\0')
  }

  /** Every finished capture lies inside the subject and every open one starts
      no later than the current position. */
  ghost predicate Inside(s: string, caps: seq<Slot>, si: nat) {
    forall k :: 0 <= k < |caps| ==>
      && caps[k].start <= si
      && (caps[k].extent.Closed? ==> caps[k].start + caps[k].extent.length <= |s|)
  }

  datatype Move = Go(si: nat, caps: seq<Slot>) | Stop | Fault(error: Error)

  /** What an item without repetition does at a position. */
  function Advance(s: string, item: Item, si: nat, caps: seq<Slot>): (m: Move)
    requires si <= |s| && Inside(s, caps, si) && |caps| <= MaxCaptures
    ensures m.Go? ==> si <= m.si <= |s| && Inside(s, m.caps, m.si) && |m.caps| <= MaxCaptures && !item.Bad?
    ensures item.Bad? ==> m == Fault(item.error)
    ensures Nests(item) ==> !m.Stop?
  {
    match item
    case Open => if |caps| == MaxCaptures then Fault(TooManyCaptures) else Go(si, caps + [Slot(si, Unfinished)])
    case Position => if |caps| == MaxCaptures then Fault(TooManyCaptures) else Go(si, caps + [Slot(si, Empty)])
    case Close => (
      match ToClose(caps)
      case Some(l) => Go(si, ClosedAt(caps, l, si))
      case None => Fault(InvalidCapture))
    case Balance(open, close) => (
      match BalanceEnd(s, si, open, close)
      case Some(end) => BalanceWithin(s, si, open, close); Go(end, caps)
      case None => Stop)
    case Frontier(chars, _) => if AtFrontier(s, si, chars) then Go(si, caps) else Stop
    case BackRef(l) =>
      if l >= |caps| || caps[l].extent.Unfinished? then Fault(InvalidIndex)
      else if caps[l].extent.Empty? then Stop
      else
        var n := caps[l].extent.length;
        if si + n <= |s| && s[si..si + n] == s[caps[l].start..caps[l].start + n] then Go(si + n, caps) else Stop
    case Bad(e) => Fault(e)
    case _ => Stop
  }

  lemma {:induction false} NextOfExact(s: string, i: nat, ch: char)
    requires i <= |s|
    ensures match NextOf(s, i, ch)
            case Some(end) => i < end <= |s| && s[end - 1] == ch && ch !in s[i..end - 1]
            case None => ch !in s[i..]
    decreases |s| - i
  {
    if i < |s| && s[i] != ch {
      NextOfExact(s, i + 1, ch);
      assert s[i..] == [s[i]] + s[i + 1..];
      if NextOf(s, i, ch).Some? {
        var end := NextOf(s, i, ch).value;
        assert s[i..end - 1] == [s[i]] + s[i + 1..end - 1];
      }
    }
  }

  /** A balanced run ends at the first position where nothing is left open. */
  lemma {:induction false} BalanceFromExact(s: string, si: nat, i: nat, depth: nat, open: char, close: char)
    requires si < i <= |s| && open != close && depth == Net(s, si, i, open, close)
    requires forall k :: si < k < i ==> Net(s, si, k, open, close) > 0
    ensures match BalanceFrom(s, i, depth, open, close)
            case Some(end) => && i <= end <= |s| && Net(s, si, end, open, close) == 0
                              && (forall k :: si < k < end ==> Net(s, si, k, open, close) > 0)
            case None => forall k :: si < k <= |s| ==> Net(s, si, k, open, close) > 0
    decreases |s| - i
  {
    if depth > 0 && i < |s| {
      var after := if s[i] == open then depth + 1 else if s[i] == close then depth - 1 else depth;
      assert after == Net(s, si, i + 1, open, close);
      BalanceFromExact(s, si, i + 1, after, open, close);
    }
  }

  lemma BalanceWithin(s: string, si: nat, open: char, close: char)
    requires si <= |s|
    ensures BalanceEnd(s, si, open, close).Some? ==> si < BalanceEnd(s, si, open, close).value <= |s|
  {
    if si < |s| && s[si] == open {
      if open == close {
        NextOfExact(s, si + 1, close);
      } else {
        assert Net(s, si, si + 1, open, close) == 1;
        BalanceFromExact(s, si, si + 1, 1, open, close);
      }
    }
  }

  // ---------------------------------------------------------------------
  // The search
  // ---------------------------------------------------------------------

  /** `taken` lists the number of repetitions chosen for each repeated item. */
  datatype Outcome = Matched(end: nat, caps: seq<Slot>, taken: seq<nat>) | NoMatch | Raised(error: Error)

  function Took(k: nat, r: Outcome): Outcome {
    if r.Matched? then r.(taken := [k] + r.taken) else r
  }

  /** How many characters from `si` on an element accepts. */
  function Run(s: string, si: nat, e: Elem): (n: nat)
    requires si <= |s|
    ensures si + n <= |s| && (forall k :: si <= k < si + n ==> Accepts(e, s[k]))
    ensures si + n < |s| ==> !Accepts(e, s[si + n])
    decreases |s| - si
  {
    if si < |s| && Accepts(e, s[si]) then 1 + Run(s, si + 1, e) else 0
  }

  ghost predicate Sound(s: string, si: nat, caps: seq<Slot>) {
    si <= |s| && Inside(s, caps, si) && |caps| <= MaxCaptures
  }

  /** The rest of one activation of `match`, at call depth `depth`. */
  function Search(s: string, p: string, si: nat, pp: nat, caps: seq<Slot>, depth: nat): (r: Outcome)
    requires Sound(s, si, caps) && pp <= |p|
    ensures r.Matched? ==> si <= r.end && Sound(s, r.end, r.caps)
    decreases |p| - pp, 0
  {
    var item := ItemAt(p, pp);
    if item.Finish? then Matched(si, caps, [])
    else if item.AtEnd? then if si == |s| then Matched(si, caps, []) else NoMatch
    else if item.Repeat? then Repeated(s, p, si, pp + item.width, caps, depth, item.suffix, Run(s, si, item.elem))
    else
      var m := Advance(s, item, si, caps);
      if m.Stop? then NoMatch
      else if m.Fault? then Raised(m.error)
      else if Nests(item) then Enter(s, p, m.si, pp + Width(item), m.caps, depth)
      else Search(s, p, m.si, pp + Width(item), m.caps, depth)
  }

  /** Captures are matched in a nested call. */
  predicate Nests(item: Item) { item.Open? || item.Position? || item.Close? }

  /** A repeated element that accepts the next `run` characters. */
  function Repeated(s: string, p: string, si: nat, pp: nat, caps: seq<Slot>, depth: nat, suffix: Suffix,
                    run: nat): (r: Outcome)
    requires Sound(s, si, caps) && pp <= |p| && si + run <= |s|
    ensures r.Matched? ==> si <= r.end && Sound(s, r.end, r.caps)
    decreases |p| - pp, 3 + run
  {
    if run == 0 then
      if suffix == Once || suffix == Plus then NoMatch else Took(0, Search(s, p, si, pp, caps, depth))
    else match suffix
         case Once => Search(s, p, si + 1, pp, caps, depth)
         case Plus => Longest(s, p, si, pp, caps, depth, run, 1)
         case Star => Longest(s, p, si, pp, caps, depth, run, 0)
         case Minus => Shortest(s, p, si, pp, caps, depth, 0, run)
         case Optional =>
           var once := Took(1, Enter(s, p, si + 1, pp, caps, depth));
           if once.NoMatch? then Took(0, Search(s, p, si, pp, caps, depth)) else once
  }

  /** A nested call of `match`. */
  function Enter(s: string, p: string, si: nat, pp: nat, caps: seq<Slot>, depth: nat): (r: Outcome)
    requires Sound(s, si, caps) && pp <= |p|
    ensures r.Matched? ==> si <= r.end && Sound(s, r.end, r.caps)
    decreases |p| - pp, 1
  {
    if depth >= MaxDepth then Raised(TooComplex) else Search(s, p, si, pp, caps, depth + 1)
  }

  /** `matchGreedy`: tries `count` repetitions, then fewer, down to `least`. */
  function Longest(s: string, p: string, si: nat, pp: nat, caps: seq<Slot>, depth: nat, count: nat,
                   least: nat): (r: Outcome)
    requires si + count <= |s| && Sound(s, si, caps) && pp <= |p| && least <= count
    ensures r.Matched? ==> si <= r.end && Sound(s, r.end, r.caps)
    decreases |p| - pp, 2 + count
  {
    var r := Took(count, Enter(s, p, si + count, pp, caps, depth));
    if r.NoMatch? && count > least then Longest(s, p, si, pp, caps, depth, count - 1, least) else r
  }

  /** `matchLazy`: tries `count` repetitions, then more, up to `most`. */
  function Shortest(s: string, p: string, si: nat, pp: nat, caps: seq<Slot>, depth: nat, count: nat,
                    most: nat): (r: Outcome)
    requires si + most <= |s| && Sound(s, si, caps) && pp <= |p| && count <= most
    ensures r.Matched? ==> si <= r.end && Sound(s, r.end, r.caps)
    decreases |p| - pp, 2 + most - count
  {
    var r := Took(count, Enter(s, p, si + count, pp, caps, depth));
    if r.NoMatch? && count < most then Shortest(s, p, si, pp, caps, depth, count + 1, most) else r
  }
}
