/**
 * What becomes of one piece of a prompt, and which of its atoms are looked up: the emphasis and the selection of
 * backend/generation_signatures.py.
 */
module PromptAtoms {
  import opened Prelude
  import opened Text
  import opened Ordering
  import opened GenerationSignatures

  // ---------------------------------------------------------------- numbers behind a colon

  /** The value of a decimal digit; which characters are digits is Unicode's business, but no sign is one. */
  type Digits = char -> Option<nat>

  ghost predicate SignsApart(d: Digits) {
    forall c :: c in "+-.:()]" ==> d(c).None?
  }

  predicate AllDigits(d: Digits, s: string) {
    forall i :: 0 <= i < |s| ==> d(s[i]).Some?
  }

  /** The number of leading digits. */
  function DigitRun(d: Digits, s: string): (n: nat)
    ensures n <= |s| && AllDigits(d, s[..n]) && (n < |s| ==> d(s[n]).None?)
  {
    if s != [] && d(s[0]).Some? then 1 + DigitRun(d, s[1..]) else 0
  }

  function NatOf(d: Digits, s: string): nat
    requires AllDigits(d, s)
  {
    if s == [] then 0 else 10 * NatOf(d, s[..|s| - 1]) + d(s[|s| - 1]).value
  }

  function Power(b: real, n: nat): real {
    if n == 0 then 1.0 else b * Power(b, n - 1)
  }

  lemma {:induction false} PowerPositive(b: real, n: nat)
    requires b > 0.0
    ensures Power(b, n) > 0.0
  {
    if n > 0 {
      PowerPositive(b, n - 1);
    }
  }

  function Decimal(d: Digits, whole: string, fraction: string): real
    requires AllDigits(d, whole) && AllDigits(d, fraction)
  {
    PowerPositive(10.0, |fraction|);
    NatOf(d, whole) as real + NatOf(d, fraction) as real / Power(10.0, |fraction|)
  }

  /** \d+(?:\.\d+)?|\.\d+ */
  function UnsignedOf(d: Digits, s: string): Option<real> {
    var n := DigitRun(d, s);
    if n == |s| then if n > 0 then Some(Decimal(d, s, [])) else None
    else if s[n] == '.' && n + 1 < |s| && AllDigits(d, s[n + 1..]) then Some(Decimal(d, s[..n], s[n + 1..]))
    else None
  }

  function NumberOf(d: Digits, s: string): Option<real> {
    if s != [] && (s[0] == '+' || s[0] == '-') then
      var u := UnsignedOf(d, s[1..]);
      if u.Some? && s[0] == '-' then Some(-u.value) else u
    else UnsignedOf(d, s)
  }

  datatype Sign = Unsigned | Plus | Minus

  /** A number as it is written. */
  datatype Spelling = Spelling(sign: Sign, whole: string, fraction: string) {
    predicate Valid(d: Digits) {
      AllDigits(d, whole) && AllDigits(d, fraction) && (whole != [] || fraction != [])
    }

    function Unsigned(): string {
      whole + if fraction == [] then [] else ['.'] + fraction
    }

    function Text(): string {
      if sign.Plus? then ['+'] + Unsigned() else if sign.Minus? then ['-'] + Unsigned() else Unsigned()
    }

    function Value(d: Digits): real
      requires Valid(d)
    {
      if sign.Minus? then -Decimal(d, whole, fraction) else Decimal(d, whole, fraction)
    }
  }

  lemma {:induction false} RunOf(d: Digits, whole: string, rest: string)
    requires AllDigits(d, whole) && (rest != [] ==> d(rest[0]).None?)
    ensures DigitRun(d, whole + rest) == |whole|
  {
    if whole != [] {
      RunOf(d, whole[1..], rest);
      assert (whole + rest)[1..] == whole[1..] + rest;
    } else {
      assert whole + rest == rest;
    }
  }

  lemma UnsignedReads(d: Digits, p: Spelling)
    requires SignsApart(d) && p.Valid(d)
    ensures UnsignedOf(d, p.Unsigned()) == Some(Decimal(d, p.whole, p.fraction))
  {
    var rest := if p.fraction == [] then [] else ['.'] + p.fraction;
    assert p.Unsigned() == p.whole + rest;
    RunOf(d, p.whole, rest);
    assert p.fraction == [] ==> p.Unsigned() == p.whole;
    assert p.fraction != [] ==> p.Unsigned()[|p.whole| + 1..] == p.fraction && p.Unsigned()[..|p.whole|] == p.whole;
  }

  lemma UnsignedStarts(d: Digits, p: Spelling)
    requires SignsApart(d) && p.Valid(d)
    ensures var u := p.Unsigned(); u != [] && u[0] != '+' && u[0] != '-'
  {
    assert p.whole != [] ==> p.Unsigned()[0] == p.whole[0] && d(p.whole[0]).Some?;
    assert p.whole == [] ==> p.Unsigned()[0] == '.';
  }

  lemma NumberReads(d: Digits, p: Spelling)
    requires SignsApart(d) && p.Valid(d)
    ensures NumberOf(d, p.Text()) == Some(p.Value(d))
  {
    hide UnsignedOf, Decimal, AllDigits, SignsApart, Spelling.Unsigned;
    UnsignedReads(d, p);
    UnsignedStarts(d, p);
    SignedText(p);
  }

  lemma SignedText(p: Spelling)
    ensures match p.sign
            case Unsigned => p.Text() == p.Unsigned()
            case Plus => p.Text() == ['+'] + p.Unsigned() && p.Text()[1..] == p.Unsigned()
            case Minus => p.Text() == ['-'] + p.Unsigned() && p.Text()[1..] == p.Unsigned()
  {
    hide Spelling.Unsigned;
  }

  lemma UnsignedIsSpelled(d: Digits, s: string) returns (p: Spelling)
    requires UnsignedOf(d, s).Some?
    ensures p.Valid(d) && p.sign.Unsigned? && p.Unsigned() == s
    ensures UnsignedOf(d, s).value == Decimal(d, p.whole, p.fraction)
  {
    var n := DigitRun(d, s);
    p := Spelling(Sign.Unsigned, s[..n], if n == |s| then [] else s[n + 1..]);
    assert n == |s| ==> s[..n] == s;
    assert n < |s| ==> s == s[..n] + (['.'] + s[n + 1..]);
  }

  lemma NumberIsSpelled(d: Digits, s: string) returns (p: Spelling)
    requires NumberOf(d, s).Some?
    ensures p.Valid(d) && p.Text() == s && NumberOf(d, s).value == p.Value(d)
  {
    if s != [] && (s[0] == '+' || s[0] == '-') {
      p := UnsignedIsSpelled(d, s[1..]);
      p := p.(sign := if s[0] == '+' then Plus else Minus);
      assert s == [s[0]] + s[1..];
    } else {
      p := UnsignedIsSpelled(d, s);
    }
  }

  lemma NatGrows(d: Digits, s: string, c: char)
    requires AllDigits(d, s) && d(c).Some?
    ensures AllDigits(d, s + [c]) && NatOf(d, s + [c]) == 10 * NatOf(d, s) + d(c).value
  {
    assert (s + [c])[..|s|] == s;
  }

  lemma SumOfQuotients(a: real, b: real, c: real, e: real)
    requires c > 0.0 && e == 10.0 * c
    ensures (10.0 * a + b) / e == a / c + b / e
  {
    assert (10.0 * a) / (10.0 * c) == a / c;
  }

  lemma QuotientGrows(n: nat, k: nat, m: nat, x: real, y: real)
    requires m == 10 * n + k && x > 0.0 && y == 10.0 * x
    ensures m as real / y == n as real / x + k as real / y
  {
    assert m as real == 10.0 * n as real + k as real;
    SumOfQuotients(n as real, k as real, x, y);
  }

  lemma PowerSteps(n: nat)
    ensures Power(10.0, n) > 0.0 && Power(10.0, n + 1) == 10.0 * Power(10.0, n)
  {
    PowerPositive(10.0, n);
  }

  lemma FractionOf(d: Digits, s: string, c: char)
    requires AllDigits(d, s) && d(c).Some?
    ensures AllDigits(d, s + [c]) && Power(10.0, |s|) > 0.0 && Power(10.0, |s| + 1) > 0.0
    ensures NatOf(d, s + [c]) as real / Power(10.0, |s| + 1)
         == NatOf(d, s) as real / Power(10.0, |s|) + d(c).value as real / Power(10.0, |s| + 1)
  {
    hide NatOf, Power;
    NatGrows(d, s, c);
    PowerSteps(|s|);
    QuotientGrows(NatOf(d, s), d(c).value, NatOf(d, s + [c]), Power(10.0, |s|), Power(10.0, |s| + 1));
  }

  /** Numerals are decimal: a digit in front of the point is a unit, and those before it count ten times as much. */
  lemma WholeDigit(d: Digits, whole: string, c: char)
    requires AllDigits(d, whole) && d(c).Some?
    ensures Decimal(d, [], []) == 0.0
    ensures AllDigits(d, whole + [c])
    ensures Decimal(d, whole + [c], []) == 10.0 * Decimal(d, whole, []) + d(c).value as real
  {
    NatGrows(d, whole, c);
  }

  /** A digit behind the point adds its tenth, hundredth and so on. */
  lemma FractionDigit(d: Digits, whole: string, fraction: string, c: char)
    requires AllDigits(d, whole) && AllDigits(d, fraction) && d(c).Some?
    ensures AllDigits(d, fraction + [c]) && Power(10.0, |fraction| + 1) > 0.0
    ensures Decimal(d, whole, fraction + [c])
         == Decimal(d, whole, fraction) + d(c).value as real / Power(10.0, |fraction| + 1)
  {
    FractionOf(d, fraction, c);
    hide NatOf, Power, AllDigits;
    assert |fraction + [c]| == |fraction| + 1;
  }

  // ---------------------------------------------------------------- unwrapping emphasis

  predicate Wrapped(s: string, open: char, close: char) {
    |s| >= 2 && s[0] == open && s[|s| - 1] == close
  }

  function Inner(s: string): string
    requires |s| >= 2
  {
    s[1..|s| - 1]
  }

  function LastColon(s: string): (i: Option<nat>)
    ensures i.Some? ==> i.value < |s| && s[i.value] == ':' && ':' !in s[i.value + 1..]
    ensures i.None? ==> ':' !in s
  {
    if s == [] then None else if s[|s| - 1] == ':' then Some(|s| - 1) else LastColon(s[..|s| - 1])
  }

  /** The match of the explicit weight pattern: the text before the last colon, and the number behind it. */
  function Explicit(d: Digits, s: string): Option<(string, real)> {
    if !Wrapped(s, '(', ')') || LastColon(Inner(s)).None? then None
    else
      var i := LastColon(Inner(s)).value;
      var w := NumberOf(d, Inner(s)[i + 1..]);
      if w.Some? then Some((Inner(s)[..i], w.value)) else None
  }

  function Marked(core: string, p: Spelling): string {
    ['('] + (core + [':'] + p.Text()) + [')']
  }

  ghost predicate MarksExplicitly(d: Digits, s: string, core: string, weight: real) {
    exists p: Spelling :: p.Valid(d) && s == Marked(core, p) && weight == p.Value(d)
  }

  lemma NoColonInNumber(d: Digits, p: Spelling)
    requires SignsApart(d) && p.Valid(d)
    ensures ':' !in p.Text()
    ensures p.Text() != [] && p.Text()[|p.Text()| - 1] !in ")]"
  {
    assert forall i :: 0 <= i < |p.whole| ==> d(p.whole[i]).Some?;
    assert forall i :: 0 <= i < |p.fraction| ==> d(p.fraction[i]).Some?;
  }

  lemma {:induction false} ColonFound(core: string, number: string)
    requires ':' !in number
    ensures LastColon(core + [':'] + number) == Some(|core|)
  {
    var s := core + [':'] + number;
    if number != [] {
      ColonFound(core, number[..|number| - 1]);
      assert s[..|s| - 1] == core + [':'] + number[..|number| - 1];
    }
  }

  lemma TakesApart(core: string, number: string)
    ensures var t := core + [':'] + number; t[..|core|] == core && t[|core| + 1..] == number
  {
  }

  lemma PutsTogether(t: string, i: nat)
    requires i < |t|
    ensures t == t[..i] + [t[i]] + t[i + 1..]
  {
  }

  lemma InnerOf(t: string, open: char, close: char)
    ensures var s := [open] + t + [close]; Wrapped(s, open, close) && Inner(s) == t
  {
  }

  lemma OuterOf(s: string)
    requires |s| >= 2
    ensures s == [s[0]] + Inner(s) + [s[|s| - 1]]
  {
  }

  lemma MarkedReads(d: Digits, core: string, p: Spelling)
    requires SignsApart(d) && p.Valid(d)
    ensures Explicit(d, Marked(core, p)) == Some((core, p.Value(d)))
  {
    NoColonInNumber(d, p);
    ColonFound(core, p.Text());
    NumberReads(d, p);
    TakesApart(core, p.Text());
    InnerOf(core + [':'] + p.Text(), '(', ')');
    hide NumberOf, LastColon, SignsApart, Inner, Wrapped, Spelling.Valid, Spelling.Text, Spelling.Value;
  }

  lemma ExplicitIsMarked(d: Digits, s: string) returns (p: Spelling)
    requires Explicit(d, s).Some?
    ensures p.Valid(d) && s == Marked(Explicit(d, s).value.0, p) && Explicit(d, s).value.1 == p.Value(d)
  {
    var t := Inner(s);
    var i := LastColon(t).value;
    p := NumberIsSpelled(d, t[i + 1..]);
    PutsTogether(t, i);
    OuterOf(s);
    hide NumberOf, LastColon, Inner, Spelling.Valid, Spelling.Text, Spelling.Value;
  }

  /** An explicit weight is read exactly from the texts (core:number), for every core and every spelled number. */
  lemma ExplicitIff(d: Digits, s: string, core: string, weight: real)
    requires SignsApart(d)
    ensures Explicit(d, s) == Some((core, weight)) <==> MarksExplicitly(d, s, core, weight)
  {
    hide Explicit;
    if MarksExplicitly(d, s, core, weight) {
      var p: Spelling :| p.Valid(d) && s == Marked(core, p) && weight == p.Value(d);
      MarkedReads(d, core, p);
    }
    if Explicit(d, s) == Some((core, weight)) {
      var p := ExplicitIsMarked(d, s);
    }
  }

  /** The text inside all outer brackets of one kind, trimmed at each step, and their number. */
  function Peel(s: string, open: char, close: char): (string, nat)
    decreases |s|
  {
    if Wrapped(s, open, close) then
      var (text, n) := Peel(Strip(Inner(s)), open, close);
      (text, n + 1)
    else (s, 0)
  }

  function Clamped(w: real): Emphasis {
    if w < 0.1 then 0.1 else if w > 2.0 then 2.0 else w
  }

  /** p round and q square pairs of brackets. */
  function Factor(p: nat, q: nat): real {
    Power(1.1, p) * Power(0.9, q)
  }

  /** An explicit weight, else a factor of 1.1 for each round and then 0.9 for each square pair of brackets. */
  function Unwrap(d: Digits, s: string): (string, Emphasis) {
    var e := Explicit(d, s);
    if e.Some? then (e.value.0, Clamped(e.value.1))
    else
      var (inner, p) := Peel(s, '(', ')');
      var (text, q) := Peel(inner, '[', ']');
      (text, Clamped(Factor(p, q)))
  }

  lemma FactorSteps(p: nat, q: nat)
    ensures Factor(0, 0) == 1.0 && Factor(p + 1, 0) == Factor(p, 0) * 1.1 && Factor(p, q + 1) == Factor(p, q) * 0.9
  {
    var (x, y) := (Power(1.1, p), Power(0.9, q));
    assert x * (0.9 * y) == (x * y) * 0.9;
  }

  lemma PeelStep(s: string, open: char, close: char)
    ensures var r := Peel(s, open, close);
      if !Wrapped(s, open, close) then r == (s, 0)
      else
        var t := Strip(Inner(s));
        |t| < |s| && r == (Peel(t, open, close).0, Peel(t, open, close).1 + 1)
  {
  }

  method UnwrapEmphasis(d: Digits, value: string) returns (text: string, weight: Emphasis)
    ensures (text, weight) == Unwrap(d, value)
  {
    hide Factor, Peel, Strip, Explicit;
    var explicitly := Explicit(d, value);
    if explicitly.Some? {
      return explicitly.value.0, Clamped(explicitly.value.1);
    }
    text := value;
    var w := 1.0;
    ghost var p, q := 0, 0;
    FactorSteps(0, 0);
    PeelStep(text, '(', ')');
    while Wrapped(text, '(', ')')
      invariant Peel(value, '(', ')') == (Peel(text, '(', ')').0, p + Peel(text, '(', ')').1)
      invariant !Wrapped(text, '(', ')') ==> Peel(text, '(', ')') == (text, 0)
      invariant w == Factor(p, 0)
      decreases |text|
    {
      PeelStep(text, '(', ')');
      FactorSteps(p, 0);
      text := Strip(Inner(text));
      w := w * 1.1;
      p := p + 1;
      PeelStep(text, '(', ')');
    }
    ghost var inner := text;
    PeelStep(text, '[', ']');
    while Wrapped(text, '[', ']')
      invariant Peel(inner, '[', ']') == (Peel(text, '[', ']').0, q + Peel(text, '[', ']').1)
      invariant !Wrapped(text, '[', ']') ==> Peel(text, '[', ']') == (text, 0)
      invariant w == Factor(p, q)
      decreases |text|
    {
      PeelStep(text, '[', ']');
      FactorSteps(p, q);
      text := Strip(Inner(text));
      w := w * 0.9;
      q := q + 1;
      PeelStep(text, '[', ']');
    }
    weight := Clamped(w);
  }

  // ---------------------------------------------------------------- nested emphasis reads back

  function Nested(core: string, n: nat, open: char, close: char): string {
    if n == 0 then core else [open] + Nested(core, n - 1, open, close) + [close]
  }

  lemma StripsNothing(s: string)
    requires s != [] ==> !IsSpace(s[0]) && !IsSpace(s[|s| - 1])
    ensures Strip(s) == s
  {
  }

  lemma {:induction false} PeelUndoesNested(core: string, n: nat, open: char, close: char)
    requires Strip(core) == core && !Wrapped(core, open, close) && !IsSpace(open) && !IsSpace(close)
    ensures Peel(Nested(core, n, open, close), open, close) == (core, n)
    ensures Strip(Nested(core, n, open, close)) == Nested(core, n, open, close)
  {
    var s := Nested(core, n, open, close);
    PeelStep(s, open, close);
    hide Strip, Peel, IsSpace;
    if n > 0 {
      PeelUndoesNested(core, n - 1, open, close);
      assert Inner(s) == Nested(core, n - 1, open, close);
      StripsNothing(s);
    }
  }

  /** A text without emphasis of its own: trimmed, in no brackets, and no weight when brackets are put around it. */
  predicate Plain(d: Digits, core: string) {
    && Strip(core) == core && !Wrapped(core, '(', ')') && !Wrapped(core, '[', ']')
    && Explicit(d, ['('] + core + [')']).None?
  }

  lemma ExplicitEndsInNumber(d: Digits, s: string)
    requires SignsApart(d) && Explicit(d, s).Some?
    ensures |s| >= 3 && s[|s| - 2] !in ")]"
  {
    var p := ExplicitIsMarked(d, s);
    NoColonInNumber(d, p);
    hide Explicit, SignsApart;
    var t := p.Text();
    assert s[|s| - 2] == t[|t| - 1];
  }

  /** A plain text in q square and then p round pairs of brackets is read back, with weight 1.1^p * 0.9^q, cut off. */
  lemma NestingReadsBack(d: Digits, core: string, p: nat, q: nat)
    requires SignsApart(d) && Plain(d, core)
    ensures Unwrap(d, Nested(Nested(core, q, '[', ']'), p, '(', ')')) == (core, Clamped(Factor(p, q)))
  {
    hide Peel, Factor, Nested, Explicit, Strip;
    NestedIsNotExplicit(d, core, p, q);
    SquareIsNotRound(core, q);
    PeelUndoesNested(core, q, '[', ']');
    PeelUndoesNested(Nested(core, q, '[', ']'), p, '(', ')');
  }

  /** A weight is what its numeral says, cut off at 0.1 and 2. */
  lemma ExplicitWeight(d: Digits, core: string, p: Spelling)
    requires SignsApart(d) && p.Valid(d)
    ensures var (text, weight) := Unwrap(d, Marked(core, p));
      && text == core
      && (weight as real == p.Value(d) <==> 0.1 <= p.Value(d) <= 2.0)
      && (p.Value(d) < 0.1 ==> weight as real == 0.1) && (p.Value(d) > 2.0 ==> weight as real == 2.0)
  {
    MarkedReads(d, core, p);
    hide Explicit, SignsApart, Marked, Spelling.Valid, Spelling.Value;
  }

  lemma SquareIsNotRound(core: string, q: nat)
    requires !Wrapped(core, '(', ')')
    ensures !Wrapped(Nested(core, q, '[', ']'), '(', ')')
  {
  }

  lemma NestedIsNotExplicit(d: Digits, core: string, p: nat, q: nat)
    requires SignsApart(d) && Plain(d, core)
    ensures Explicit(d, Nested(Nested(core, q, '[', ']'), p, '(', ')')).None?
  {
    hide SignsApart, Strip, Nested, NumberOf, LastColon;
    var square := Nested(core, q, '[', ']');
    SquareIsNotRound(core, q);
    NestedStep(square, p, '(', ')');
    if p > 0 {
      hide Explicit;
      NestedEnd(core, p - 1, q);
      WrappedIsNotExplicit(d, Nested(square, p - 1, '(', ')'));
    }
  }

  lemma NestedStep(core: string, n: nat, open: char, close: char)
    ensures Nested(core, n, open, close) ==
            if n == 0 then core else [open] + Nested(core, n - 1, open, close) + [close]
  {
  }

  lemma WrappedIsNotExplicit(d: Digits, t: string)
    requires SignsApart(d)
    ensures t != [] && t[|t| - 1] in ")]" ==> Explicit(d, ['('] + t + [')']).None?
  {
    var s := ['('] + t + [')'];
    if t != [] && Explicit(d, s).Some? {
      ExplicitEndsInNumber(d, s);
      assert s[|s| - 2] == t[|t| - 1];
    }
  }

  lemma NestedEnd(core: string, p: nat, q: nat)
    ensures var t := Nested(Nested(core, q, '[', ']'), p, '(', ')');
      if p + q > 0 then t != [] && t[|t| - 1] in ")]" else t == core
  {
  }

  // ---------------------------------------------------------------- brackets that do not belong together

  /** Round brackets opened minus round brackets closed. */
  function Height(s: string): int {
    if s == [] then 0
    else
      var c := s[|s| - 1];
      Height(s[..|s| - 1]) + if c == '(' then 1 else if c == ')' then -1 else 0
  }

  ghost predicate NotBelow(s: string, low: int) {
    forall k :: 0 <= k <= |s| ==> Height(s[..k]) >= low
  }

  /** Every round bracket has its partner. */
  ghost predicate Balanced(s: string) {
    Height(s) == 0 && NotBelow(s, 0)
  }

  /** The first bracket is closed by the last one. */
  ghost predicate Paired(s: string) {
    forall k :: 1 <= k < |s| ==> Height(s[..k]) > 0
  }

  predicate NoRound(s: string) {
    '(' !in s && ')' !in s
  }

  lemma {:induction false} HeightAdds(a: string, b: string)
    ensures Height(a + b) == Height(a) + Height(b)
  {
    if b == [] {
      assert a + b == a;
    } else {
      HeightAdds(a, b[..|b| - 1]);
      assert (a + b)[..|a + b| - 1] == a + b[..|b| - 1];
    }
  }

  lemma {:induction false} FlatHeight(s: string)
    requires NoRound(s)
    ensures Height(s) == 0
  {
    if s != [] {
      FlatHeight(s[..|s| - 1]);
    }
  }

  /** What stands around a text without round brackets changes nothing about its balance. */
  lemma FlatEnds(before: string, core: string, behind: string)
    requires NoRound(before) && NoRound(behind)
    ensures Balanced(before + core + behind) <==> Balanced(core)
  {
    var s := before + core + behind;
    hide Height, NoRound;
    forall k: nat | k <= |s|
      ensures Height(s[..k]) == Height(core[..Within(k - |before|, |core|)])
    {
      PrefixHeight(before, core, behind, k);
    }
    assert s[..|s|] == s && core[..|core|] == core;
    if Balanced(s) {
      forall k | 0 <= k <= |core|
        ensures Height(core[..k]) >= 0
      {
        assert Height(s[..|before| + k]) >= 0;
      }
    }
  }

  function Within(k: int, n: nat): (r: nat)
    ensures r <= n
  {
    if k < 0 then 0 else if k > n then n else k
  }

  lemma PrefixHeight(before: string, core: string, behind: string, k: nat)
    requires NoRound(before) && NoRound(behind) && k <= |before + core + behind|
    ensures Height((before + core + behind)[..k]) == Height(core[..Within(k - |before|, |core|)])
  {
    var (s, j) := (before + core + behind, Within(k - |before|, |core|));
    var x := if k < |before| then before[..k] else before;
    var z := if k > |before| + |core| then behind[..k - |before| - |core|] else [];
    assert s[..k] == x + core[..j] + z;
    FlatHeight(x);
    FlatHeight(z);
    HeightAdds(x, core[..j]);
    HeightAdds(x + core[..j], z);
  }

  lemma StripKeepsBalance(s: string)
    ensures Balanced(Strip(s)) <==> Balanced(s)
  {
    var a, b := StripCuts(s);
    assert s == s[..a] + s[a..b] + s[b..];
    FlatEnds(s[..a], s[a..b], s[b..]);
  }

  /** One pair taken off: the heights inside are one less. */
  lemma InnerHeight(s: string, k: nat)
    requires Wrapped(s, '(', ')') && k <= |Inner(s)|
    ensures Height(s[..k + 1]) == 1 + Height(Inner(s)[..k])
    ensures Height(s) == Height(Inner(s))
  {
    var t := Inner(s);
    assert s[..k + 1] == ['('] + t[..k] && s == ['('] + t + [')'];
    assert Height(['(']) == 1 && Height([')']) == -1 by {
      assert ['('][..0] == [] && [')'][..0] == [];
    }
    HeightAdds(['('], t[..k]);
    HeightAdds(['('], t);
    HeightAdds(['('] + t, [')']);
  }

  /** Taking off the outer brackets keeps a text balanced iff they belong together, and never mends one. */
  lemma OuterPair(s: string)
    requires Wrapped(s, '(', ')')
    ensures Balanced(Inner(s)) <==> Balanced(s) && Paired(s)
  {
    var t := Inner(s);
    forall k | 0 <= k <= |t|
      ensures Height(s[..k + 1]) == 1 + Height(t[..k])
    {
      InnerHeight(s, k);
    }
    InnerHeight(s, 0);
    assert s[..|s|] == s && s[..0] == [];
    if Balanced(t) {
      forall k | 1 <= k < |s|
        ensures Height(s[..k]) > 0
      {
        assert Height(t[..k - 1]) >= 0;
      }
    }
  }

  /** Every pair of brackets that is taken off belongs together. */
  ghost predicate PairsOnly(s: string)
    decreases |s|
  {
    Wrapped(s, '(', ')') ==> Paired(s) && PairsOnly(Strip(Inner(s)))
  }

  lemma {:induction false} PeelRound(s: string)
    ensures Balanced(Peel(s, '(', ')').0) <==> Balanced(s) && PairsOnly(s)
    decreases |s|
  {
    if Wrapped(s, '(', ')') {
      PeelRound(Strip(Inner(s)));
      StripKeepsBalance(Inner(s));
      OuterPair(s);
      hide Balanced, Paired, Strip;
    }
  }

  lemma {:induction false} PeelSquare(s: string)
    ensures Balanced(Peel(s, '[', ']').0) <==> Balanced(s)
    decreases |s|
  {
    if Wrapped(s, '[', ']') {
      PeelSquare(Strip(Inner(s)));
      StripKeepsBalance(Inner(s));
      assert s == ['['] + Inner(s) + [']'];
      FlatEnds(['['], Inner(s), [']']);
      hide Balanced, Strip;
    }
  }

  lemma ExplicitBalance(d: Digits, s: string)
    requires SignsApart(d) && Explicit(d, s).Some?
    ensures Balanced(Explicit(d, s).value.0) <==> Balanced(s) && Paired(s)
  {
    var core := Explicit(d, s).value.0;
    var p := ExplicitIsMarked(d, s);
    NoRoundInNumber(d, p);
    OuterPair(s);
    FlatEnds([], core, [':'] + p.Text());
    MarkedInner(core, p);
    hide Balanced, Paired, Explicit, SignsApart, Inner, NoRound, Spelling.Valid, Spelling.Text;
  }

  lemma MarkedInner(core: string, p: Spelling)
    ensures Wrapped(Marked(core, p), '(', ')') && Inner(Marked(core, p)) == [] + core + ([':'] + p.Text())
  {
    InnerOf(core + [':'] + p.Text(), '(', ')');
    Regroup(core, [':'], p.Text());
    hide Inner, Wrapped, Spelling.Text;
  }

  lemma Regroup(a: string, b: string, c: string)
    ensures a + b + c == [] + a + (b + c)
  {
  }

  lemma NoRoundInNumber(d: Digits, p: Spelling)
    requires SignsApart(d) && p.Valid(d)
    ensures NoRound([':'] + p.Text())
  {
    assert forall i :: 0 <= i < |p.whole| ==> d(p.whole[i]).Some?;
    assert forall i :: 0 <= i < |p.fraction| ==> d(p.fraction[i]).Some?;
  }

  /** A balanced text stays balanced without its emphasis iff every round pair that is taken off belongs together. */
  lemma BalanceKeptIff(d: Digits, s: string)
    requires SignsApart(d) && Balanced(s)
    ensures Balanced(Unwrap(d, s).0) <==> if Explicit(d, s).Some? then Paired(s) else PairsOnly(s)
  {
    if Explicit(d, s).Some? {
      ExplicitBalance(d, s);
    } else {
      PeelRound(s);
      PeelSquare(Peel(s, '(', ')').0);
    }
  }

  /** Two emphasised words lose the first opening and the last closing bracket. */
  lemma NeighboursLoseBrackets(d: Digits)
    ensures var s := "(a) (b)"; Balanced(s) && Unwrap(d, s) == ("a) (b", 1.1) && !Balanced("a) (b")
  {
    hide Height, Unwrap, Strip;
    TwoPairs();
    TakenApart(d);
    Heights();
    assert "a) (b"[..2] == "a)";
  }

  lemma TakenApart(d: Digits)
    ensures Unwrap(d, "(a) (b)") == ("a) (b", 1.1)
  {
    hide Unwrap, Strip, LastColon;
    var s, t := "(a) (b)", "a) (b";
    assert Inner(s) == t;
    NoColon(t);
    StripsNothing(t);
    OnePairTaken(d, s);
  }

  lemma TwoPairs()
    ensures Balanced("(a) (b)")
  {
    var s := "(a) (b)";
    Heights();
    hide Height;
    assert s[..0] == "" && s[..1] == "(" && s[..2] == "(a" && s[..3] == "(a)" && s[..4] == "(a) " && s[..5] == "(a) (";
    assert s[..6] == "(a) (b" && s[..7] == s;
  }

  lemma OnePairTaken(d: Digits, s: string)
    requires Wrapped(s, '(', ')') && Strip(Inner(s)) == Inner(s) && LastColon(Inner(s)).None?
    requires !Wrapped(Inner(s), '(', ')') && !Wrapped(Inner(s), '[', ']')
    ensures Unwrap(d, s) == (Inner(s), 1.1)
  {
    var t := Inner(s);
    assert Explicit(d, s).None?;
    PeelStep(s, '(', ')');
    PeelStep(t, '(', ')');
    PeelStep(t, '[', ']');
    OneFactor();
    hide Strip, Peel, Factor, LastColon, Inner, Wrapped, Clamped, Explicit;
  }

  lemma OneFactor()
    ensures Clamped(Factor(1, 0)) == 1.1
  {
    FactorSteps(0, 0);
  }

  lemma Heights()
    ensures Height("") == 0 && Height("(") == 1 && Height("(a") == 1 && Height("(a)") == 0 && Height("(a) ") == 0
    ensures Height("(a) (") == 1 && Height("(a) (b") == 1 && Height("(a) (b)") == 0 && Height("a)") == -1
  {
    assert "("[..0] == "" && "(a"[..1] == "(" && "(a)"[..2] == "(a" && "(a) "[..3] == "(a)";
    assert "(a) ("[..4] == "(a) " && "(a) (b"[..5] == "(a) (" && "(a) (b)"[..6] == "(a) (b";
    assert "a"[..0] == "" && "a)"[..1] == "a";
  }

  lemma NoColon(s: string)
    requires ':' !in s
    ensures LastColon(s).None?
  {
  }

  // ---------------------------------------------------------------- atoms for candidate lookup

  const MAX_SELECTED := 16

  /** Boilerplate that says little about a picture. */
  const COMMON_ATOMS: set<string> := {
    "4k", "8k", "best quality", "high quality", "highres", "low quality", "masterpiece", "ultra detailed", "watermark",
    "blurry"
  }

  datatype Candidate = Candidate(ordinal: nat, atom: Atom)

  /** The five sort keys: boilerplate last, then the heavier, the longer, the earlier, and the identity. */
  predicate Before(a: Candidate, b: Candidate) {
    var (s, t) := (a.atom.identity, b.atom.identity);
    if (s in COMMON_ATOMS) != (t in COMMON_ATOMS) then t in COMMON_ATOMS
    else if a.atom.weight != b.atom.weight then a.atom.weight > b.atom.weight
    else if |s| != |t| then |s| > |t|
    else if a.ordinal != b.ordinal then a.ordinal < b.ordinal
    else StringLess(s, t)
  }

  lemma BeforeIsTotal()
    ensures TotalOrder(Before)
  {
    StringLessIsTotal();
    hide StringLess;
    forall a, b, c
      ensures !Before(a, a)
      ensures Before(a, b) && Before(b, c) ==> Before(a, c)
      ensures a != b ==> Before(a, b) || Before(b, a)
    {
    }
  }

  /** The dictionary of the loop: an atom replaces that of its identity when it is heavier. */
  function Best(atoms: seq<Atom>): map<string, Candidate> {
    if atoms == [] then map[]
    else
      var (best, n) := (Best(atoms[..|atoms| - 1]), |atoms| - 1);
      if Improves(best, atoms[n]) then best[atoms[n].identity := Candidate(n, atoms[n])] else best
  }

  predicate Improves(best: map<string, Candidate>, a: Atom) {
    a.identity !in best || a.weight > best[a.identity].atom.weight
  }

  /** The keys in the order in which they came in. */
  function Keys(atoms: seq<Atom>): seq<string> {
    if atoms == [] then []
    else
      var (keys, k) := (Keys(atoms[..|atoms| - 1]), atoms[|atoms| - 1].identity);
      if k in keys then keys else keys + [k]
  }

  /** The first of the heaviest atoms of its identity. */
  ghost predicate FirstHeaviest(atoms: seq<Atom>, c: Candidate) {
    && c.ordinal < |atoms| && atoms[c.ordinal] == c.atom
    && forall j :: 0 <= j < |atoms| && atoms[j].identity == c.atom.identity ==>
         atoms[j].weight < c.atom.weight || (atoms[j].weight == c.atom.weight && c.ordinal <= j)
  }

  /** The dictionary has one entry for each identity of the prompt: its first heaviest atom. */
  lemma {:induction false} BestIsFirstHeaviest(atoms: seq<Atom>, k: string)
    ensures k in Best(atoms) <==> exists a :: a in atoms && a.identity == k
    ensures k in Best(atoms) ==> Best(atoms)[k].atom.identity == k && FirstHeaviest(atoms, Best(atoms)[k])
    ensures k in Best(atoms) <==> k in Keys(atoms)
  {
    if atoms != [] {
      var front, last := atoms[..|atoms| - 1], atoms[|atoms| - 1];
      assert atoms == front + [last];
      BestIsFirstHeaviest(front, k);
      if last.identity == k && k !in Best(front) {
        assert forall j :: 0 <= j < |front| ==> front[j] in front;
      }
    }
  }

  lemma {:induction false} KeysAreDistinct(atoms: seq<Atom>)
    ensures Distinct(Keys(atoms))
  {
    if atoms != [] {
      KeysAreDistinct(atoms[..|atoms| - 1]);
    }
  }

  function Listed(best: map<string, Candidate>, keys: seq<string>): (r: seq<Candidate>)
    requires forall k :: k in keys ==> k in best
    ensures |r| == |keys| && forall i :: 0 <= i < |r| ==> r[i] == best[keys[i]]
  {
    if keys == [] then [] else Listed(best, keys[..|keys| - 1]) + [best[keys[|keys| - 1]]]
  }

  /** distinct.values() */
  function Entries(atoms: seq<Atom>): seq<Candidate> {
    KeysAreKeys(atoms);
    Listed(Best(atoms), Keys(atoms))
  }

  lemma KeysAreKeys(atoms: seq<Atom>)
    ensures forall k :: k in Keys(atoms) <==> k in Best(atoms)
  {
    forall k
      ensures k in Keys(atoms) <==> k in Best(atoms)
    {
      BestIsFirstHeaviest(atoms, k);
    }
  }

  lemma EntriesAreDistinct(atoms: seq<Atom>)
    ensures Distinct(Entries(atoms))
  {
    KeysAreDistinct(atoms);
    var keys, s := Keys(atoms), Entries(atoms);
    forall i, j | 0 <= i < j < |s|
      ensures s[i] != s[j]
    {
      BestIsFirstHeaviest(atoms, keys[i]);
      BestIsFirstHeaviest(atoms, keys[j]);
    }
  }

  lemma EntriesIff(atoms: seq<Atom>, c: Candidate)
    ensures c in Entries(atoms) <==> FirstHeaviest(atoms, c)
  {
    var keys, s := Keys(atoms), Entries(atoms);
    if c in s {
      var i :| 0 <= i < |s| && s[i] == c;
      BestIsFirstHeaviest(atoms, keys[i]);
    }
    if FirstHeaviest(atoms, c) {
      IsBest(atoms, c);
      var i :| 0 <= i < |keys| && keys[i] == c.atom.identity;
      assert s[i] == c;
    }
  }

  lemma IsBest(atoms: seq<Atom>, c: Candidate)
    requires FirstHeaviest(atoms, c)
    ensures var k := c.atom.identity; k in Keys(atoms) && k in Best(atoms) && Best(atoms)[k] == c
  {
    var k := c.atom.identity;
    assert c.atom in atoms;
    BestIsFirstHeaviest(atoms, k);
    OneFirstHeaviest(atoms, c, Best(atoms)[k]);
  }

  lemma OneFirstHeaviest(atoms: seq<Atom>, b: Candidate, c: Candidate)
    requires FirstHeaviest(atoms, b) && FirstHeaviest(atoms, c) && b.atom.identity == c.atom.identity
    ensures b == c
  {
    assert atoms[b.ordinal].identity == atoms[c.ordinal].identity;
  }

  function Limit(limit: int): (n: nat)
    ensures 1 <= n <= MAX_SELECTED && (limit < 1 ==> n == 1) && (limit > 16 ==> n == 16)
    ensures 1 <= limit <= 16 ==> n == limit
  {
    if limit < 1 then 1 else if limit > MAX_SELECTED then MAX_SELECTED else limit
  }

  function Ranked(atoms: seq<Atom>): (r: seq<Candidate>) {
    Sort(Before, Entries(atoms))
  }

  /** The selected candidates with their positions. */
  function Selected(atoms: seq<Atom>, limit: int): seq<Candidate> {
    var (r, n) := (Ranked(atoms), Limit(limit));
    r[..if |r| < n then |r| else n]
  }

  function AtomsOf(cs: seq<Candidate>): (r: seq<Atom>)
    ensures |r| == |cs| && forall i :: 0 <= i < |r| ==> r[i] == cs[i].atom
  {
    if cs == [] then [] else AtomsOf(cs[..|cs| - 1]) + [cs[|cs| - 1].atom]
  }

  function Identities(cs: seq<Candidate>): (r: seq<string>)
    ensures |r| == |cs| && forall i :: 0 <= i < |r| ==> r[i] == cs[i].atom.identity
  {
    if cs == [] then [] else Identities(cs[..|cs| - 1]) + [cs[|cs| - 1].atom.identity]
  }

  /** The candidates that go before c. */
  ghost function Ahead(atoms: seq<Atom>, c: Candidate): set<Candidate> {
    set b | b in Entries(atoms) && Before(b, c)
  }

  /**
   * The selection is sorted, and an atom is in it iff it is the first heaviest of its identity and fewer than the
   * limit of these go before it.
   */
  lemma SelectedIff(atoms: seq<Atom>, limit: int, c: Candidate)
    ensures Sorted(Before, Selected(atoms, limit))
    ensures forall b :: b in Ahead(atoms, c) <==> FirstHeaviest(atoms, b) && Before(b, c)
    ensures c in Selected(atoms, limit) <==> FirstHeaviest(atoms, c) && |Ahead(atoms, c)| < Limit(limit)
  {
    var s := Entries(atoms);
    forall b
      ensures b in s <==> FirstHeaviest(atoms, b)
    {
      EntriesIff(atoms, b);
    }
    EntriesAreDistinct(atoms);
    BeforeIsTotal();
    hide Before, FirstHeaviest, Entries;
    SortIsStrict(Before, s);
    SortPermutes(Before, s);
    PrefixByRank(Before, Ranked(atoms), Limit(limit), c);
    assert Below(Before, Ranked(atoms), c) == Ahead(atoms, c);
  }

  lemma KeySet(atoms: seq<Atom>)
    ensures (set k | k in Keys(atoms)) == set a | a in atoms :: a.identity
  {
    forall k
      ensures k in Keys(atoms) <==> exists a :: a in atoms && a.identity == k
    {
      BestIsFirstHeaviest(atoms, k);
    }
    hide Keys;
  }

  /** As many atoms are selected as the limit and the identities of the prompt allow, and no identity comes twice. */
  lemma SelectedSize(atoms: seq<Atom>, limit: int)
    ensures var (s, n) := (Selected(atoms, limit), |set a | a in atoms :: a.identity|);
      |s| == (if n < Limit(limit) then n else Limit(limit)) && Distinct(Identities(s))
  {
    KeysAreDistinct(atoms);
    ValuesOf(Keys(atoms));
    KeySet(atoms);
    SortPermutes(Before, Entries(atoms));
    SelectedIdentities(atoms, limit);
    hide Keys, Best, Sort, Before, Distinct, Identities;
  }

  lemma SelectedIdentities(atoms: seq<Atom>, limit: int)
    ensures Distinct(Identities(Selected(atoms, limit)))
  {
    var s := Selected(atoms, limit);
    BeforeIsTotal();
    forall i, j | 0 <= i < j < |s|
      ensures s[i].atom.identity != s[j].atom.identity
    {
      SelectedIff(atoms, limit, s[i]);
      SelectedIff(atoms, limit, s[j]);
      hide FirstHeaviest, Before, Selected;
      assert s[i] in s && s[j] in s && Before(s[i], s[j]) && s[i] != s[j];
      DifferentIdentities(atoms, s[i], s[j]);
    }
  }

  lemma DifferentIdentities(atoms: seq<Atom>, b: Candidate, c: Candidate)
    requires FirstHeaviest(atoms, b) && FirstHeaviest(atoms, c)
    ensures b != c ==> b.atom.identity != c.atom.identity
  {
    if b.atom.identity == c.atom.identity {
      OneFirstHeaviest(atoms, b, c);
    }
  }

  method SelectPromptAtomsForFts(atoms: seq<Atom>, limit: int) returns (selected: seq<Atom>)
    ensures selected == AtomsOf(Selected(atoms, limit))
  {
    var distinct: map<string, Candidate>, keys: seq<string> := map[], [];
    for ordinal := 0 to |atoms|
      invariant distinct == Best(atoms[..ordinal]) && keys == Keys(atoms[..ordinal])
    {
      var atom := atoms[ordinal];
      assert atoms[..ordinal + 1][..ordinal] == atoms[..ordinal];
      BestIsFirstHeaviest(atoms[..ordinal], atom.identity);
      if atom.identity !in distinct {
        keys := keys + [atom.identity];
      }
      if atom.identity !in distinct || atom.weight > distinct[atom.identity].atom.weight {
        distinct := distinct[atom.identity := Candidate(ordinal, atom)];
      }
    }
    assert atoms[..|atoms|] == atoms;
    KeysAreKeys(atoms);
    var ranked := Sort(Before, Listed(distinct, keys));
    var n := Limit(limit);
    selected := AtomsOf(ranked[..if |ranked| < n then |ranked| else n]);
  }

  /** Boilerplate is selected only when every other atom of the prompt is. */
  lemma CommonComesLast(atoms: seq<Atom>, limit: int, b: Candidate, c: Candidate)
    requires b in Selected(atoms, limit) && b.atom.identity in COMMON_ATOMS
    requires FirstHeaviest(atoms, c) && c.atom.identity !in COMMON_ATOMS
    ensures c in Selected(atoms, limit)
  {
    SelectedIff(atoms, limit, b);
    SelectedIff(atoms, limit, c);
    BeforeIsTotal();
    assert Before(c, b);
    forall x | x in Ahead(atoms, c)
      ensures x in Ahead(atoms, b)
    {
      assert Before(x, c) && FirstHeaviest(atoms, x);
      assert Before(x, b);
    }
    SmallerSubset(Ahead(atoms, c), Ahead(atoms, b));
  }

  /** What is selected of the atoms that are boilerplate, or of those that are not: heavy, long and early ones. */
  predicate Preferred(b: Candidate, c: Candidate) {
    || b.atom.weight > c.atom.weight
    || (b.atom.weight == c.atom.weight && |b.atom.identity| > |c.atom.identity|)
    || (b.atom.weight == c.atom.weight && |b.atom.identity| == |c.atom.identity| && b.ordinal <= c.ordinal)
  }

  /** No atom that is left out is preferred to a selected one of its kind. */
  lemma PreferredAreSelected(atoms: seq<Atom>, limit: int, b: Candidate, c: Candidate)
    requires b in Selected(atoms, limit) && FirstHeaviest(atoms, c) && c !in Selected(atoms, limit)
    requires b.atom.identity in COMMON_ATOMS <==> c.atom.identity in COMMON_ATOMS
    ensures Preferred(b, c)
  {
    if Before(c, b) {
      SelectedIff(atoms, limit, b);
      SelectedIff(atoms, limit, c);
      BeforeIsTotal();
      hide Before, Selected;
      forall x | x in Ahead(atoms, c)
        ensures x in Ahead(atoms, b)
      {
        assert Before(x, c) && FirstHeaviest(atoms, x);
        assert Before(x, b);
      }
      SmallerSubset(Ahead(atoms, c), Ahead(atoms, b));
    }
    BeforeIsTotal();
    assert b != c;
  }

  /** The selected atoms come in that order, boilerplate behind the rest. */
  lemma SelectedInOrder(atoms: seq<Atom>, limit: int, i: nat, j: nat)
    requires i < j < |Selected(atoms, limit)|
    ensures var (b, c) := (Selected(atoms, limit)[i], Selected(atoms, limit)[j]);
      && (b.atom.identity in COMMON_ATOMS ==> c.atom.identity in COMMON_ATOMS)
      && ((b.atom.identity in COMMON_ATOMS <==> c.atom.identity in COMMON_ATOMS) ==> Preferred(b, c))
  {
    SelectedIff(atoms, limit, Selected(atoms, limit)[i]);
    assert Before(Selected(atoms, limit)[i], Selected(atoms, limit)[j]);
  }

  ghost predicate Covered(atoms: seq<Atom>, b: Atom) {
    exists a :: a in atoms && a.identity == b.identity && a.weight >= b.weight
  }

  lemma {:induction false} RepeatsChangeNoEntry(atoms: seq<Atom>, more: seq<Atom>)
    requires forall b :: b in more ==> Covered(atoms, b)
    ensures Best(atoms + more) == Best(atoms) && Keys(atoms + more) == Keys(atoms)
  {
    if more == [] {
      assert atoms + more == atoms;
    } else {
      var front, last := more[..|more| - 1], more[|more| - 1];
      assert more == front + [last] && last in more;
      assert atoms + more == (atoms + front) + [last];
      RepeatsChangeNoEntry(atoms, front);
      NoImprovement(atoms, last);
      hide Covered;
      OneMore(atoms + front, last);
    }
  }

  lemma OneMore(atoms: seq<Atom>, a: Atom)
    ensures !Improves(Best(atoms), a) && a.identity in Keys(atoms) ==>
              Best(atoms + [a]) == Best(atoms) && Keys(atoms + [a]) == Keys(atoms)
  {
    assert (atoms + [a])[..|atoms|] == atoms;
  }

  lemma NoImprovement(atoms: seq<Atom>, b: Atom)
    requires Covered(atoms, b)
    ensures !Improves(Best(atoms), b) && b.identity in Keys(atoms)
  {
    BestIsFirstHeaviest(atoms, b.identity);
    var a :| a in atoms && a.identity == b.identity && a.weight >= b.weight;
    var i :| 0 <= i < |atoms| && atoms[i] == a;
  }

  /** Atoms that are there already, no lighter, do not change the selection when they come again. */
  lemma RepeatsChangeNothing(atoms: seq<Atom>, more: seq<Atom>, limit: int)
    requires forall b :: b in more ==> Covered(atoms, b)
    ensures Selected(atoms + more, limit) == Selected(atoms, limit)
  {
    RepeatsChangeNoEntry(atoms, more);
  }
}
