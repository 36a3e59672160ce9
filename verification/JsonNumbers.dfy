/** Exact reading of JSON number literals (section 6 of RFC 8259): whether a
    literal denotes a 64-bit integer (internal/merge/json_bridge.go), and the
    normal form that test fixtures are compared by (cmd/sink/lua_compare.go). */
module JsonNumbers {
  import opened Options

  // ---------------------------------------------------------------------
  // Digits
  // ---------------------------------------------------------------------

  predicate IsDigit(c: char) { '0' <= c <= '9' }

  predicate Digits(d: string) { forall i :: 0 <= i < |d| ==> IsDigit(d[i]) }

  function Digit(c: char): nat { if IsDigit(c) then c as int - '0' as int else 0 }

  /** The number that a digit string denotes. */
  function Num(d: string): nat {
    if d == "" then 0 else 10 * Num(d[..|d| - 1]) + Digit(d[|d| - 1])
  }

  function Pow10(k: nat): nat { if k == 0 then 1 else 10 * Pow10(k - 1) }

  lemma {:induction false} Pow10Add(j: nat, k: nat)
    ensures Pow10(j + k) == Pow10(j) * Pow10(k)
  {
    if k > 0 {
      Pow10Add(j, k - 1);
      assert Pow10(j + k) == 10 * Pow10(j + k - 1);
      assert Pow10(j) * Pow10(k) == 10 * (Pow10(j) * Pow10(k - 1));
    }
  }

  lemma PowZero()
    ensures Pow10(0) == 1
  {
  }

  lemma {:induction false} Pow10Positive(k: nat)
    ensures Pow10(k) >= 1 && (k > 0 ==> Pow10(k) >= 10)
  {
    if k > 0 {
      Pow10Positive(k - 1);
    }
  }

  lemma {:induction false} Pow10Monotone(j: nat, k: nat)
    requires j <= k
    ensures Pow10(j) <= Pow10(k)
  {
    if j < k {
      Pow10Monotone(j, k - 1);
    }
  }

  lemma {:induction false} NumAppend(a: string, b: string)
    ensures Num(a + b) == Num(a) * Pow10(|b|) + Num(b)
  {
    if b == "" {
      assert a + b == a;
    } else {
      var n := |b| - 1;
      NumAppend(a, b[..n]);
      NumLast(a + b);
      NumLast(b);
      TenTimes(Num(a), |b|);
      hide Num, Pow10;
      assert (a + b)[..|a + b| - 1] == a + b[..n];
    }
  }

  lemma NumLast(d: string)
    requires d != ""
    ensures Num(d) == 10 * Num(d[..|d| - 1]) + Digit(d[|d| - 1])
  {
  }

  lemma {:induction false} NumBound(d: string)
    ensures Num(d) < Pow10(|d|)
  {
    if d != "" {
      NumBound(d[..|d| - 1]);
    }
  }

  lemma {:induction false} NumZero(d: string)
    requires Digits(d)
    ensures Num(d) == 0 <==> forall i :: 0 <= i < |d| ==> d[i] == '0'
  {
    if d != "" {
      var n := |d| - 1;
      NumZero(d[..n]);
      assert d == d[..n] + [d[n]];
    }
  }

  /** A leading digit other than zero fixes the size. */
  lemma {:induction false} NumLeading(d: string)
    requires Digits(d) && d != "" && d[0] != '0'
    ensures Num(d) >= Pow10(|d| - 1)
  {
    if |d| > 1 {
      NumLeading(d[..|d| - 1]);
    }
  }

  predicate Zeros(d: string) { forall i :: 0 <= i < |d| ==> d[i] == '0' }

  /** The first position from `i` on that is not a zero. */
  function SkipZeros(d: string, i: nat): (r: nat)
    requires i <= |d|
    ensures i <= r <= |d| && (forall k :: i <= k < r ==> d[k] == '0') && (r < |d| ==> d[r] != '0')
    decreases |d| - i
  {
    if i < |d| && d[i] == '0' then SkipZeros(d, i + 1) else i
  }

  function TrimLeft(d: string): string { d[SkipZeros(d, 0)..] }

  function TrimRight(d: string): (t: string)
    ensures |t| <= |d| && t == d[..|t|] && (t != "" ==> t[|t| - 1] != '0') && Zeros(d[|t|..])
  {
    if d != "" && d[|d| - 1] == '0' then
      var t := TrimRight(d[..|d| - 1]);
      assert d[|t|..] == d[..|d| - 1][|t|..] + ['0'];
      t
    else d
  }

  lemma TrimLeftNum(d: string)
    requires Digits(d)
    ensures Digits(TrimLeft(d)) && Num(TrimLeft(d)) == Num(d)
  {
    var k := SkipZeros(d, 0);
    NumAppend(d[..k], d[k..]);
    assert d == d[..k] + d[k..];
    NumZero(d[..k]);
  }

  // ---------------------------------------------------------------------
  // Literals and what they denote
  // ---------------------------------------------------------------------

  /** The exponent part: `sign` is empty, `+` or `-`. */
  datatype Exponent = Exponent(letter: char, sign: string, digits: string)

  datatype Literal = Literal(negative: bool, whole: string, fraction: Option<string>, exponent: Option<Exponent>)

  /** The grammar of section 6 of RFC 8259. */
  ghost predicate Grammatical(l: Literal) {
    && Digits(l.whole) && l.whole != "" && (l.whole[0] == '0' ==> |l.whole| == 1)
    && (l.fraction.Some? ==> Digits(l.fraction.value) && l.fraction.value != "")
    && (l.exponent.Some? ==>
          && (l.exponent.value.letter == 'e' || l.exponent.value.letter == 'E')
          && (l.exponent.value.sign == "" || l.exponent.value.sign == "+" || l.exponent.value.sign == "-")
          && Digits(l.exponent.value.digits) && l.exponent.value.digits != "")
  }

  function Text(l: Literal): string {
    (if l.negative then "-" else "") + l.whole
    + (if l.fraction.Some? then "." + l.fraction.value else "")
    + (if l.exponent.Some? then [l.exponent.value.letter] + l.exponent.value.sign + l.exponent.value.digits else "")
  }

  function FractionDigits(l: Literal): string { if l.fraction.Some? then l.fraction.value else "" }

  function ExponentValue(l: Literal): int {
    match l.exponent
    case None => 0
    case Some(e) => if e.sign == "-" then -(Num(e.digits) as int) else Num(e.digits)
  }

  /** A literal denotes `Coefficient` times ten to the `Scale`. */
  function Coefficient(l: Literal): int {
    var n: int := Num(l.whole + FractionDigits(l));
    if l.negative then -n else n
  }

  function Scale(l: Literal): int { ExponentValue(l) - |FractionDigits(l)| }

  /** `c` times ten to the `x` is the integer `n`. */
  ghost predicate IsInteger(c: int, x: int, n: int) {
    if x >= 0 then n == c * Pow10(x) else c == n * Pow10(-x)
  }

  /** `c` times ten to the `x` equals `d` times ten to the `y`. */
  ghost predicate SameValue(c: int, x: int, d: int, y: int) {
    if x >= y then c * Pow10(x - y) == d else c == d * Pow10(y - x)
  }

  // ---------------------------------------------------------------------
  // Taking a literal's text apart
  // ---------------------------------------------------------------------

  function IndexAny(text: string, chars: string, i: nat): (r: nat)
    requires i <= |text|
    ensures i <= r <= |text| && (r < |text| ==> text[r] in chars) && (forall k :: i <= k < r ==> text[k] !in chars)
    decreases |text| - i
  {
    if i == |text| || text[i] in chars then i else IndexAny(text, chars, i + 1)
  }

  datatype Pieces = Pieces(negative: bool, digits: string, fractionLength: nat, exponent: Option<string>)

  function Split(text: string): Pieces {
    var e := IndexAny(text, "eE", 0);
    SplitMantissa(text[..e], if e < |text| then Some(text[e + 1..]) else None)
  }

  function SplitMantissa(mantissa: string, exponent: Option<string>): Pieces {
    var negative := mantissa != "" && mantissa[0] == '-';
    SplitBody(negative, if negative then mantissa[1..] else mantissa, exponent)
  }

  function SplitBody(negative: bool, body: string, exponent: Option<string>): Pieces {
    var dot := IndexAny(body, ".", 0);
    if dot < |body| then Pieces(negative, body[..dot] + body[dot + 1..], |body| - dot - 1, exponent)
    else Pieces(negative, body, 0, exponent)
  }

  lemma IndexAnyAt(text: string, chars: string, r: nat)
    requires r <= |text| && (forall k :: 0 <= k < r ==> text[k] !in chars) && (r < |text| ==> text[r] in chars)
    ensures IndexAny(text, chars, 0) == r
  {
  }

  function MantissaText(l: Literal): string {
    (if l.negative then "-" else "") + BodyText(l)
  }

  function BodyText(l: Literal): string {
    l.whole + (if l.fraction.Some? then "." + l.fraction.value else "")
  }

  lemma BodySplits(l: Literal, exponent: Option<string>)
    requires Grammatical(l)
    ensures SplitBody(l.negative, BodyText(l), exponent)
            == Pieces(l.negative, l.whole + FractionDigits(l), |FractionDigits(l)|, exponent)
  {
    hide IndexAny;
    var body := BodyText(l);
    IndexAnyAt(body, ".", |l.whole|);
    if l.fraction.Some? {
      assert body[..|l.whole|] == l.whole && body[|l.whole| + 1..] == l.fraction.value;
    } else {
      assert l.whole + "" == l.whole;
    }
  }

  lemma SignSplits(negative: bool, body: string, exponent: Option<string>)
    requires body != "" && body[0] != '-'
    ensures SplitMantissa((if negative then "-" else "") + body, exponent) == SplitBody(negative, body, exponent)
  {
    hide SplitBody;
    if negative {
      assert ("-" + body)[1..] == body;
    } else {
      assert "" + body == body;
    }
  }

  lemma {:induction false} NoLetter(l: Literal)
    requires Grammatical(l)
    ensures BodyText(l) != "" && BodyText(l)[0] != '-'
        && forall k :: 0 <= k < |MantissaText(l)| ==> MantissaText(l)[k] !in "eE"
  {
    assert forall k :: 0 <= k < |BodyText(l)| ==> IsDigit(BodyText(l)[k]) || BodyText(l)[k] == '.';
  }

  lemma CutAt(m: string, tail: string)
    requires (forall k :: 0 <= k < |m| ==> m[k] !in "eE") && (tail != "" ==> tail[0] in "eE")
    ensures IndexAny(m + tail, "eE", 0) == |m| && (m + tail)[..|m|] == m
        && (tail != "" ==> (m + tail)[|m| + 1..] == tail[1..])
  {
    IndexAnyAt(m + tail, "eE", |m|);
  }

  function TailText(l: Literal): string {
    if l.exponent.Some? then [l.exponent.value.letter] + l.exponent.value.sign + l.exponent.value.digits else ""
  }

  lemma TailSplits(l: Literal)
    requires Grammatical(l)
    ensures Text(l) == MantissaText(l) + TailText(l)
    ensures TailText(l) != "" <==> l.exponent.Some?
    ensures l.exponent.Some? ==>
      TailText(l)[0] in "eE" && TailText(l)[1..] == l.exponent.value.sign + l.exponent.value.digits
  {
  }

  /** The text of a literal splits into the parts it was written from. */
  lemma SplitText(l: Literal)
    requires Grammatical(l)
    ensures Split(Text(l)) == Pieces(l.negative, l.whole + FractionDigits(l), |FractionDigits(l)|,
                                     if l.exponent.Some? then Some(l.exponent.value.sign + l.exponent.value.digits)
                                         else None)
  {
    hide IndexAny, Text, SplitMantissa, SplitBody, BodyText, TailText;
    var exponent := if l.exponent.Some? then Some(l.exponent.value.sign + l.exponent.value.digits) else None;
    NoLetter(l);
    TailSplits(l);
    CutAt(MantissaText(l), TailText(l));
    SignSplits(l.negative, BodyText(l), exponent);
    BodySplits(l, exponent);
  }

  /** A decimal integer with an optional sign. */
  function ParseInt(text: string): Option<int> {
    var signed := text != "" && (text[0] == '+' || text[0] == '-');
    var d := if signed then text[1..] else text;
    if d == "" || !Digits(d) then None
    else if signed && text[0] == '-' then Some(-(Num(d) as int))
    else Some(Num(d))
  }

  lemma ParseExponent(l: Literal)
    requires Grammatical(l) && l.exponent.Some?
    ensures ParseInt(l.exponent.value.sign + l.exponent.value.digits) == Some(ExponentValue(l))
  {
    hide Num;
    var e := l.exponent.value;
    if e.sign == "" {
      assert e.sign + e.digits == e.digits;
    } else {
      assert (e.sign + e.digits)[0] == e.sign[0] && (e.sign + e.digits)[1..] == e.digits;
    }
  }

  // ---------------------------------------------------------------------
  // Exact integers
  // ---------------------------------------------------------------------

  predicate Int64(n: int) { -0x8000_0000_0000_0000 <= n <= 0x7FFF_FFFF_FFFF_FFFF }
  predicate Int32(n: int) { -0x8000_0000 <= n <= 0x7FFF_FFFF }

  datatype Verdict = Unsupported | NotIntegral | Integer(value: int) | OutOfRange

  function Signed(negative: bool, n: int): int { if negative then -n else n }

  function Repeat(c: char, k: nat): string { seq(k, _ => c) }

  /** `exactJSONInteger`. */
  function ExactInteger(text: string): Verdict {
    var p := Split(text);
    match if p.exponent.None? then Some(0) else ParseInt(p.exponent.value)
    case None => Unsupported
    case Some(exponent) =>
      if !Int32(exponent) then Unsupported
      else Whole(p.negative, TrimLeft(p.digits), exponent - p.fractionLength)
  }

  /** Digits without leading zeros, times ten to the `x`. */
  function Whole(negative: bool, digits: string, x: int): Verdict {
    if digits == "" then Integer(0)
    else if x < 0 then
      var end := |digits| + x;
      if end <= 0 || !Zeros(digits[end..]) then NotIntegral else Ranged(negative, digits[..end], 0)
    else Ranged(negative, digits, x)
  }

  function Ranged(negative: bool, digits: string, x: nat): Verdict {
    if |digits| + x > 19 then OutOfRange
    else
      var n := Signed(negative, Num(digits + Repeat('0', x)));
      if Int64(n) then Integer(n) else OutOfRange
  }

  /** The verdict on an integer `n`. */
  ghost predicate Judges(v: Verdict, n: int) { if Int64(n) then v == Integer(n) else v == OutOfRange }

  lemma PadNum(digits: string, x: nat)
    ensures Num(digits + Repeat('0', x)) == Num(digits) * Pow10(x)
  {
    NumAppend(digits, Repeat('0', x));
    NumZero(Repeat('0', x));
  }

  /** More than nineteen digits are more than 64 bits hold. */
  lemma TooLong(digits: string, x: nat)
    requires Digits(digits) && digits != "" && digits[0] != '0' && |digits| + x > 19
    ensures Num(digits) * Pow10(x) >= 10_000_000_000_000_000_000
  {
    NumLeading(digits);
    Pow10Add(|digits| - 1, x);
    Pow10Monotone(19, |digits| - 1 + x);
    TenToThe19();
    Scaled(Pow10(|digits| - 1), Num(digits), Pow10(x));
  }

  lemma Scaled(a: nat, b: nat, k: nat)
    requires a <= b
    ensures a * k <= b * k
  {
  }

  lemma RangedRight(negative: bool, digits: string, x: nat)
    requires Digits(digits) && digits != "" && digits[0] != '0'
    ensures Judges(Ranged(negative, digits, x), Signed(negative, Num(digits) * Pow10(x)))
  {
    if |digits| + x > 19 {
      TooLong(digits, x);
    } else {
      PadNum(digits, x);
    }
  }

  lemma TenToThe19()
    ensures Pow10(19) == 10_000_000_000_000_000_000
  {
    assert Pow10(5) == 100_000;
    Pow10Add(5, 5);
    Pow10Add(10, 5);
    assert Pow10(4) == 10_000;
    Pow10Add(15, 4);
  }

  lemma TimesAtLeast(d: int, p: nat)
    requires d >= 1
    ensures d * p >= p
  {
    assert d * p == p + (d - 1) * p;
  }

  lemma TimesAtMost(d: int, p: nat)
    requires d <= 0
    ensures d * p <= 0
  {
  }

  lemma TimesZero(d: int, p: nat)
    requires p > 0
    ensures d * p == 0 ==> d == 0
  {
    if d >= 1 {
      TimesAtLeast(d, p);
    } else if d <= -1 {
      TimesAtLeast(-d, p);
    }
  }

  lemma Cancel(a: int, b: int, p: nat)
    requires p > 0 && a * p == b * p
    ensures a == b
  {
    assert (a - b) * p == 0;
    TimesZero(a - b, p);
  }

  /** A remainder strictly between zero and `p` is not a multiple of `p`. */
  lemma NoMultiple(a: int, r: nat, p: nat, n: int)
    requires 0 < r < p
    ensures a * p + r != n * p
  {
    assert n * p - a * p == (n - a) * p;
    if n - a >= 1 {
      TimesAtLeast(n - a, p);
    } else {
      TimesAtMost(n - a, p);
    }
  }

  lemma SignedTimes(negative: bool, a: int, p: int)
    ensures Signed(negative, a * p) == Signed(negative, a) * p
  {
  }

  /** There is no integer, or the verdict is on the only one. */
  ghost predicate Exact(v: Verdict, c: int, x: int) {
    if v.NotIntegral? then forall n :: !IsInteger(c, x, n)
    else exists n :: IsInteger(c, x, n) && Judges(v, n) && forall m :: IsInteger(c, x, m) ==> m == n
  }

  lemma ExactAt(v: Verdict, c: int, x: int, n: int)
    requires IsInteger(c, x, n) && Judges(v, n)
    ensures Exact(v, c, x)
  {
    forall m | IsInteger(c, x, m) ensures m == n {
      if x < 0 {
        Pow10Positive(-x);
        Cancel(m, n, Pow10(-x));
      }
    }
  }

  /** The last `k` digits decide whether ten to the `k` divides. */
  lemma Indivisible(negative: bool, digits: string, k: nat, n: int)
    requires Digits(digits) && k > 0 && Num(digits) > 0
    requires k < |digits| ==> !Zeros(digits[|digits| - k..])
    requires k >= |digits| ==> digits[0] != '0'
    ensures Signed(negative, Num(digits)) != n * Pow10(k)
  {
    hide Num, Pow10;
    var m := Signed(negative, n);
    if k < |digits| {
      LastDigits(digits, k, m);
    } else {
      NumBound(digits);
      Pow10Monotone(|digits|, k);
      NoMultiple(0, Num(digits), Pow10(k), m);
    }
    SignedTimes(negative, n, Pow10(k));
  }

  lemma LastDigits(digits: string, k: nat, n: int)
    requires Digits(digits) && 0 < k < |digits| && !Zeros(digits[|digits| - k..])
    ensures Num(digits) != n * Pow10(k)
  {
    hide Num, Pow10;
    var end := |digits| - k;
    assert digits == digits[..end] + digits[end..];
    NumAppend(digits[..end], digits[end..]);
    NumZero(digits[end..]);
    NumBound(digits[end..]);
    NoMultiple(Num(digits[..end]), Num(digits[end..]), Pow10(k), n);
  }

  lemma WholeUp(negative: bool, digits: string, x: nat)
    requires Digits(digits) && digits != "" && digits[0] != '0'
    ensures Exact(Ranged(negative, digits, x), Signed(negative, Num(digits)), x)
  {
    hide Num, Pow10, Ranged, Exact, Signed;
    RangedRight(negative, digits, x);
    SignedTimes(negative, Num(digits), Pow10(x));
    ExactAt(Ranged(negative, digits, x), Signed(negative, Num(digits)), x, Signed(negative, Num(digits)) * Pow10(x));
  }

  lemma WholeDown(negative: bool, digits: string, end: nat)
    requires Digits(digits) && 0 < end < |digits| && digits[0] != '0' && Zeros(digits[end..])
    ensures Exact(Ranged(negative, digits[..end], 0), Signed(negative, Num(digits)), end - |digits|)
  {
    hide Num, Pow10, Ranged, Exact, Signed;
    var pre, k := digits[..end], |digits| - end;
    assert digits == pre + digits[end..];
    NumAppend(pre, digits[end..]);
    NumZero(digits[end..]);
    RangedRight(negative, pre, 0);
    PowZero();
    SignedTimes(negative, Num(pre), Pow10(k));
    ExactAt(Ranged(negative, pre, 0), Signed(negative, Num(digits)), -k, Signed(negative, Num(pre)));
  }

  lemma WholeNever(negative: bool, digits: string, x: int)
    requires Digits(digits) && digits != "" && digits[0] != '0' && x < 0
    requires |digits| + x <= 0 || !Zeros(digits[|digits| + x..])
    ensures Exact(NotIntegral, Signed(negative, Num(digits)), x)
  {
    hide Num, Pow10, Signed;
    NumLeading(digits);
    Pow10Positive(|digits| - 1);
    forall n ensures !IsInteger(Signed(negative, Num(digits)), x, n) {
      Indivisible(negative, digits, -x, n);
    }
  }

  lemma WholeRight(negative: bool, digits: string, x: int)
    requires Digits(digits) && (digits != "" ==> digits[0] != '0')
    ensures Exact(Whole(negative, digits, x), Signed(negative, Num(digits)), x)
  {
    if digits == "" {
      ExactAt(Integer(0), 0, x, 0);
    } else {
      hide Num, Ranged, Exact, Signed, Zeros;
      if x >= 0 {
        WholeUp(negative, digits, x);
      } else if |digits| + x <= 0 || !Zeros(digits[|digits| + x..]) {
        WholeNever(negative, digits, x);
      } else {
        WholeDown(negative, digits, |digits| + x);
      }
    }
  }

  /** `exactJSONInteger` on every literal of the grammar: it gives up exactly when
      the exponent does not fit 32 bits; otherwise it returns the integer that the
      literal denotes, reports a non-integer exactly when it denotes none, and an
      error exactly when the integer does not fit 64 bits. */
  lemma ExactIntegerRight(l: Literal)
    requires Grammatical(l)
    ensures var v, c, x := ExactInteger(Text(l)), Coefficient(l), Scale(l);
            && (v.Unsupported? <==> !Int32(ExponentValue(l)))
            && (!v.Unsupported? ==>
                  && (forall n :: v == Integer(n) <==> IsInteger(c, x, n) && Int64(n))
                  && (v.NotIntegral? <==> forall n :: !IsInteger(c, x, n))
                  && (v.OutOfRange? <==> exists n :: IsInteger(c, x, n) && !Int64(n)))
  {
    hide Num, Pow10, Text, Split, ParseInt, IsInteger, TrimLeft, Whole;
    SplitText(l);
    if l.exponent.Some? {
      ParseExponent(l);
    }
    var d := l.whole + FractionDigits(l);
    TrimLeftNum(d);
    TrimmedLeads(d);
    if Int32(ExponentValue(l)) {
      WholeRight(l.negative, TrimLeft(d), Scale(l));
      Conclude(ExactInteger(Text(l)), Coefficient(l), Scale(l));
    }
  }

  lemma TrimmedLeads(d: string)
    requires Digits(d)
    ensures Digits(TrimLeft(d)) && (TrimLeft(d) != "" ==> TrimLeft(d)[0] != '0')
  {
  }

  lemma Conclude(v: Verdict, c: int, x: int)
    requires Exact(v, c, x) && !v.Unsupported?
    ensures forall n :: v == Integer(n) <==> IsInteger(c, x, n) && Int64(n)
    ensures v.NotIntegral? <==> forall n :: !IsInteger(c, x, n)
    ensures v.OutOfRange? <==> exists n :: IsInteger(c, x, n) && !Int64(n)
  {
    if !v.NotIntegral? {
      var n :| IsInteger(c, x, n) && Judges(v, n) && forall m :: IsInteger(c, x, m) ==> m == n;
    }
  }

  // ---------------------------------------------------------------------
  // Normal form
  // ---------------------------------------------------------------------

  datatype Normal = Normal(coefficient: string, exponent: int) | Raw(text: string)

  /** `normalizeLuaTestNumber`. */
  function Normalize(text: string): Normal {
    var p := Split(text);
    match if p.exponent.None? then Some(0) else ParseInt(p.exponent.value)
    case None => Raw(text)
    case Some(exponent) => NormalOf(p.negative, TrimLeft(p.digits), exponent - p.fractionLength)
  }

  function NormalOf(negative: bool, m: string, x: int): Normal {
    if m == "" then Normal("0", 0)
    else
      var c := TrimRight(m);
      Normal((if negative then "-" else "") + c, x + |m| - |c|)
  }

  lemma {:induction false} TrimRightNum(m: string)
    requires Digits(m)
    ensures Digits(TrimRight(m)) && Num(m) == Num(TrimRight(m)) * Pow10(|m| - |TrimRight(m)|)
  {
    var c := TrimRight(m);
    assert m == c + m[|c|..];
    NumAppend(c, m[|c|..]);
    NumZero(m[|c|..]);
  }

  /** A number that ends in another digit than zero is not a multiple of ten. */
  lemma LastDigit(c: string)
    requires Digits(c) && c != "" && c[|c| - 1] != '0'
    ensures Num(c) % 10 != 0
  {
  }

  /** Digit strings without leading zeros are the same when their numbers are. */
  lemma {:induction false} NumInjective(a: string, b: string)
    requires Digits(a) && Digits(b) && (a != "" ==> a[0] != '0') && (b != "" ==> b[0] != '0') && Num(a) == Num(b)
    ensures a == b
    decreases |a|
  {
    if a == "" || b == "" {
      assert a != "" ==> Num(a) > 0 by { if a != "" { NumLeading(a); Pow10Positive(|a| - 1); } }
      assert b != "" ==> Num(b) > 0 by { if b != "" { NumLeading(b); Pow10Positive(|b| - 1); } }
    } else {
      var m, n := |a| - 1, |b| - 1;
      assert Num(a) == 10 * Num(a[..m]) + Digit(a[m]) && Num(b) == 10 * Num(b[..n]) + Digit(b[n]);
      NumInjective(a[..m], b[..n]);
      assert a == a[..m] + [a[m]] && b == b[..n] + [b[n]];
    }
  }

  /** A coefficient that ten does not divide fixes its exponent. */
  lemma {:induction false} UniqueForm(a: int, u: nat, b: int, v: nat)
    requires a % 10 != 0 && b % 10 != 0 && a * Pow10(u) == b * Pow10(v)
    ensures a == b && u == v
    decreases u
  {
    if u > 0 {
      TenTimes(a, u);
    }
    if v > 0 {
      TenTimes(b, v);
    }
    if u > 0 && v > 0 {
      UniqueForm(a, u - 1, b, v - 1);
    }
  }

  lemma TenTimes(a: int, u: nat)
    requires u > 0
    ensures a * Pow10(u) == 10 * (a * Pow10(u - 1)) && (a * Pow10(u)) % 10 == 0
  {
    var q := a * Pow10(u - 1);
    assert a * Pow10(u) == a * (10 * Pow10(u - 1));
    assert a * (10 * Pow10(u - 1)) == 10 * q;
    assert (10 * q) % 10 == 0;
  }

  /** A nonzero value as a normal form: sign and digits of the coefficient, the
      integer they denote, and the number of zeros removed. */
  ghost predicate Form(n: Normal, c: int, x: int, a: int, zeros: nat) {
    && n.Normal? && a % 10 != 0 && c == a * Pow10(zeros) && n.exponent == x + zeros
    && exists d :: Digits(d) && d != "" && d[0] != '0' && n.coefficient == (if a < 0 then "-" else "") + d
        && a == Signed(a < 0, Num(d))
  }

  lemma NormalHasForm(negative: bool, m: string, x: int) returns (a: int, zeros: nat)
    requires Digits(m) && m != "" && m[0] != '0'
    ensures Form(NormalOf(negative, m, x), Signed(negative, Num(m)), x, a, zeros)
  {
    hide Num, Pow10, TrimRight;
    var d := TrimRight(m);
    TrimRightNum(m);
    Trimmed(m);
    LastDigit(d);
    a, zeros := Signed(negative, Num(d)), |m| - |d|;
    SignedTimes(negative, Num(d), Pow10(zeros));
    SignedDigit(negative, Num(d));
    assert Digits(d) && d != "" && d[0] != '0' && a == Signed(a < 0, Num(d));
  }

  lemma Trimmed(m: string)
    requires Digits(m) && m != "" && m[0] != '0'
    ensures var d := TrimRight(m);
            0 < |d| <= |m| && d[0] != '0' && d[|d| - 1] != '0'
  {
    var d := TrimRight(m);
    assert m == d + m[|d|..];
    assert d != "" ==> d[0] == m[0];
  }

  lemma SignedDigit(negative: bool, n: nat)
    requires n % 10 != 0
    ensures Signed(negative, n) % 10 != 0 && (Signed(negative, n) < 0 <==> negative)
  {
  }

  /** The same normal form, the same value; the same value, the same form. */
  lemma FormsAgree(n: Normal, c: int, x: int, a: int, u: nat, o: Normal, e: int, y: int, b: int, v: nat)
    requires Form(n, c, x, a, u) && Form(o, e, y, b, v)
    ensures n == o <==> SameValue(c, x, e, y)
  {
    if x >= y {
      FormsAgreeOneWay(n, c, x, a, u, o, e, y, b, v);
    } else {
      FormsAgreeOneWay(o, e, y, b, v, n, c, x, a, u);
    }
  }

  lemma FormsAgreeOneWay(n: Normal, c: int, x: int, a: int, u: nat, o: Normal, e: int, y: int, b: int, v: nat)
    requires Form(n, c, x, a, u) && Form(o, e, y, b, v) && x >= y
    ensures n == o <==> c * Pow10(x - y) == e
  {
    hide Form, Pow10;
    FormFacts(n, c, x, a, u);
    FormFacts(o, e, y, b, v);
    Pow10Add(u, x - y);
    Associate(a, Pow10(u), Pow10(x - y));
    SameDigits(n, c, x, a, u, o, e, y, b, v);
    if c * Pow10(x - y) == e {
      UniqueForm(a, u + (x - y), b, v);
    }
  }

  lemma FormFacts(n: Normal, c: int, x: int, a: int, zeros: nat)
    requires Form(n, c, x, a, zeros)
    ensures n.Normal? && a % 10 != 0 && c == a * Pow10(zeros) && n.exponent == x + zeros
  {
  }

  lemma Associate(a: int, p: int, q: int)
    ensures a * p * q == a * (p * q)
  {
  }

  /** Equal coefficients have equal text, and the other way round. */
  lemma SameDigits(n: Normal, c: int, x: int, a: int, u: nat, o: Normal, e: int, y: int, b: int, v: nat)
    requires Form(n, c, x, a, u) && Form(o, e, y, b, v)
    ensures n.coefficient == o.coefficient <==> a == b
  {
    var d :| Digits(d) && d != "" && d[0] != '0' && n.coefficient == (if a < 0 then "-" else "") + d
        && a == Signed(a < 0, Num(d));
    var f :| Digits(f) && f != "" && f[0] != '0' && o.coefficient == (if b < 0 then "-" else "") + f
        && b == Signed(b < 0, Num(f));
    if a == b {
      NumInjective(d, f);
    }
    if n.coefficient == o.coefficient {
      assert a < 0 <==> n.coefficient[0] == '-';
      assert b < 0 <==> o.coefficient[0] == '-';
      assert d == (if a < 0 then n.coefficient[1..] else n.coefficient);
      assert f == (if b < 0 then o.coefficient[1..] else o.coefficient);
    }
  }

  lemma {:induction false} ZeroOrForm(l: Literal) returns (a: int, zeros: nat)
    requires Grammatical(l)
    ensures Coefficient(l) == 0 ==> Normalize(Text(l)) == Normal("0", 0)
    ensures Coefficient(l) != 0 ==> Form(Normalize(Text(l)), Coefficient(l), Scale(l), a, zeros)
  {
    hide Num, Pow10, Text, Split, ParseInt, TrimLeft, Form, NormalOf;
    SplitText(l);
    if l.exponent.Some? {
      ParseExponent(l);
    }
    var d := l.whole + FractionDigits(l);
    TrimLeftNum(d);
    TrimmedLeads(d);
    var m := TrimLeft(d);
    a, zeros := 0, 0;
    if m == "" {
      EmptyIsZero(l.negative, Scale(l));
    } else {
      NumLeading(m);
      Pow10Positive(|m| - 1);
      a, zeros := NormalHasForm(l.negative, m, Scale(l));
    }
  }

  lemma EmptyIsZero(negative: bool, x: int)
    ensures Num("") == 0 && NormalOf(negative, "", x) == Normal("0", 0)
  {
  }

  /** A value other than zero is not zero, in its text and in any scale. */
  lemma FormNotZero(n: Normal, c: int, x: int, a: int, zeros: nat, y: int)
    requires Form(n, c, x, a, zeros)
    ensures n != Normal("0", 0) && !SameValue(c, x, 0, y) && !SameValue(0, y, c, x)
  {
    var d :| Digits(d) && d != "" && d[0] != '0' && n.coefficient == (if a < 0 then "-" else "") + d
        && a == Signed(a < 0, Num(d));
    assert n.coefficient[0] != '0';
    Pow10Positive(zeros);
    TimesZero(a, Pow10(zeros));
    if x >= y {
      Pow10Positive(x - y);
      TimesZero(c, Pow10(x - y));
    }
  }

  /** The test comparer's normal form is equal for two literals exactly when their
      values are. */
  lemma NormalFormRight(l: Literal, m: Literal)
    requires Grammatical(l) && Grammatical(m)
    ensures Normalize(Text(l)) == Normalize(Text(m)) <==> SameValue(Coefficient(l), Scale(l), Coefficient(m), Scale(m))
  {
    hide Form, Normalize, Text, Coefficient, Scale, Pow10;
    var a, u := ZeroOrForm(l);
    var b, v := ZeroOrForm(m);
    if Coefficient(l) != 0 && Coefficient(m) != 0 {
      FormsAgree(Normalize(Text(l)), Coefficient(l), Scale(l), a, u, Normalize(Text(m)), Coefficient(m), Scale(m), b,
                 v);
    } else if Coefficient(l) != 0 {
      FormNotZero(Normalize(Text(l)), Coefficient(l), Scale(l), a, u, Scale(m));
    } else if Coefficient(m) != 0 {
      FormNotZero(Normalize(Text(m)), Coefficient(m), Scale(m), b, v, Scale(l));
    }
  }
}
