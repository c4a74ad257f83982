/** The tokens that the query parser hands to the condition builder. */
module QueryTokens {
  import opened Prelude

  /** A parsed field:value filter; an empty quoteChar means an unquoted value. */
  datatype FieldToken = FieldToken(
    field: string, value: string, operator: string, quoteChar: string, key: Option<string>)

  datatype ParsedQuery = ParsedQuery(residual: string, fields: seq<FieldToken>)
}

/** The cursor-based query parser of backend/fielded_search_parser.py. */
module QueryParser {
  import opened Prelude
  import opened QueryTokens
  import opened Text

  /** What the parser recognizes: the word characters of the regular expression engine and the field names. */
  datatype Syntax = Syntax(word: char -> bool, names: set<string>)

  const SHORT_NAMES: set<string> := {
    "date", "tool", "seed", "cfg", "size", "vae", "ensd", "path", "name", "lora", "raw", "prompt", "source", "steps",
    "width", "height", "ratio", "model", "folder", "param"
  }

  const LONG_NAMES: set<string> := {
    "positive", "negative", "generation_time", "gen_time", "cfg_scale", "sampler", "scheduler", "aspect_ratio",
    "checkpoint", "model_hash", "model_or_hash", "resource", "resource_hash", "clip_skip", "hires_upscale",
    "hires_steps", "denoising_strength", "aesthetic_score", "location", "advanced"
  }

  const NAMES := SHORT_NAMES + LONG_NAMES

  function Normalize(name: string): string {
    match name
    case "positive" => "prompt"
    case "gen_time" => "generation_time"
    case "source" => "tool"
    case "cfg" => "cfg_scale"
    case "checkpoint" => "model"
    case "ratio" => "aspect_ratio"
    case "folder" => "path"
    case "location" => "path"
    case "resource" => "lora"
    case _ => name
  }

  predicate IsLowerName(s: string) {
    forall i :: 0 <= i < |s| ==> 'a' <= s[i] <= 'z' || s[i] == '_'
  }

  predicate IsName(s: string) {
    s != [] && IsLowerName(s)
  }

  /** Field names are lower case; a space or a quote is no word character. */
  ghost predicate Regular(x: Syntax) {
    !x.word(' ') && !x.word('"') && !x.word('\'') && forall name :: name in x.names ==> IsName(name)
  }

  /** The field names of the source are all lower case. */
  lemma SourceSyntaxIsRegular(word: char -> bool)
    requires !word(' ') && !word('"') && !word('\'')
    ensures Regular(Syntax(word, NAMES))
  {
    hide IsName;
    ShortNamesAreNames();
    LongNamesAreNames();
  }

  lemma ShortNamesAreNames()
    ensures forall name :: name in SHORT_NAMES ==> IsName(name)
  {
    hide IsName;
    ShortNames();
  }

  lemma LongNamesAreNames()
    ensures forall name :: name in LONG_NAMES ==> IsName(name)
  {
    hide IsName;
    LongNames();
    LongerNames();
  }

  lemma ShortNames()
    ensures IsName("date") && IsName("tool") && IsName("seed") && IsName("cfg")
    ensures IsName("size") && IsName("vae") && IsName("ensd") && IsName("path")
    ensures IsName("name") && IsName("lora") && IsName("raw") && IsName("prompt")
    ensures IsName("source") && IsName("steps") && IsName("width") && IsName("height")
    ensures IsName("ratio") && IsName("model") && IsName("folder") && IsName("param")
  {
  }

  lemma LongNames()
    ensures IsName("positive") && IsName("negative") && IsName("generation_time") && IsName("gen_time")
    ensures IsName("cfg_scale") && IsName("sampler") && IsName("scheduler") && IsName("aspect_ratio")
    ensures IsName("checkpoint") && IsName("model_hash")
  {
  }

  lemma LongerNames()
    ensures IsName("model_or_hash") && IsName("resource") && IsName("resource_hash") && IsName("clip_skip")
    ensures IsName("hires_upscale") && IsName("hires_steps")
    ensures IsName("denoising_strength") && IsName("aesthetic_score")
    ensures IsName("location") && IsName("advanced")
  {
  }

  /** Case folding of the pattern's letters, with the four non-ASCII characters that fold to them. */
  function FoldLetter(c: char): char {
    if c as int == 0x130 || c as int == 0x131 then 'i'
    else if c as int == 0x17F then 's'
    else if c as int == 0x212A then 'k'
    else AsciiLower(c)
  }

  function Folded(s: string): string {
    seq(|s|, i requires 0 <= i < |s| => FoldLetter(s[i]))
  }

  /** str.lower on a matched name: the dotted capital I becomes two characters. */
  function LowerName(s: string): string {
    if s == [] then []
    else (if s[0] as int == 0x130 then ['i', 0x307 as char]
          else if s[0] as int == 0x212A then ['k'] else [AsciiLower(s[0])]) + LowerName(s[1..])
  }

  function NameEnd(s: string): (n: nat)
    ensures n <= |s|
  {
    if s == [] || IsSpace(s[0]) || s[0] == ':' then 0 else 1 + NameEnd(s[1..])
  }

  /** The length of a field name, colon and surrounding white space at the start of s, if there is one. */
  function FieldEnd(x: Syntax, s: string): (r: Option<nat>)
    ensures r.Some? ==> 0 < r.value <= |s|
  {
    var k := ColonPlace(s);
    if Folded(s[..NameEnd(s)]) in x.names && k < |s| && s[k] == ':' then Some(Behind(s, k)) else None
  }

  /** Where the colon of a field must stand: behind the name and white space. */
  function ColonPlace(s: string): (k: nat)
    ensures k <= |s|
  {
    NameEnd(s) + Skip(s[NameEnd(s)..])
  }

  /** The first place behind a colon and white space. */
  function Behind(s: string, k: nat): (e: nat)
    requires k < |s|
    ensures k < e <= |s|
  {
    k + 1 + Skip(s[k + 1..])
  }

  predicate FieldStarts(x: Syntax, s: string, i: nat)
    requires i <= |s|
  {
    (i == 0 || !x.word(s[i - 1])) && FieldEnd(x, s[i..]).Some?
  }

  /** The leftmost match of the field pattern at or after position i. */
  function SearchFrom(x: Syntax, s: string, i: nat): (r: Option<nat>)
    requires i <= |s|
    ensures r.Some? ==> i <= r.value <= |s| && FieldStarts(x, s, r.value)
    decreases |s| - i
  {
    if FieldStarts(x, s, i) then Some(i) else if i == |s| then None else SearchFrom(x, s, i + 1)
  }

  /** The search finds the first place where a field starts, and fails only if there is none. */
  lemma {:induction false} SearchIsLeftmost(x: Syntax, s: string, i: nat)
    requires i <= |s|
    ensures forall k :: i <= k <= |s| && (SearchFrom(x, s, i).Some? ==> k < SearchFrom(x, s, i).value) ==>
              !FieldStarts(x, s, k)
    decreases |s| - i
  {
    hide FieldStarts;
    if !FieldStarts(x, s, i) && i < |s| {
      SearchIsLeftmost(x, s, i + 1);
    }
  }

  lemma {:induction false} SearchFinds(x: Syntax, s: string, i: nat, n: nat)
    requires i <= n <= |s| && FieldStarts(x, s, n) && forall k :: i <= k < n ==> !FieldStarts(x, s, k)
    ensures SearchFrom(x, s, i) == Some(n)
    decreases n - i
  {
    hide FieldStarts;
    if i < n {
      SearchFinds(x, s, i + 1, n);
    }
  }

  // ---------------------------------------------------------------- reading a value

  datatype Read = Read(value: string, quote: string, used: nat)

  function Spaces(s: string): (n: nat)
    ensures n <= |s|
  {
    if s != [] && s[0] == ' ' then 1 + Spaces(s[1..]) else 0
  }

  predicate IsQuote(c: char) {
    c == '"' || c == '\''
  }

  /** The text after an opening quote q, up to the closing one or the end. */
  function ReadQuoted(s: string, q: char): (r: (string, nat))
    ensures r.1 <= |s|
  {
    if s == [] then ([], 0)
    else if s[0] == '\\' && |s| > 1 && s[1] in {q, '\\'} then
      var rest := ReadQuoted(s[2..], q);
      ([s[1]] + rest.0, rest.1 + 2)
    else if s[0] == q then ([], 1)
    else
      var rest := ReadQuoted(s[1..], q);
      ([s[0]] + rest.0, rest.1 + 1)
  }

  /** An unquoted value ends at a space, at a quote, and where the next field starts. */
  predicate Stops(x: Syntax, s: string) {
    s == [] || s[0] == ' ' || IsQuote(s[0]) || FieldEnd(x, s).Some?
  }

  function UnquotedLength(x: Syntax, s: string): (n: nat)
    ensures n <= |s|
  {
    if Stops(x, s) then 0 else 1 + UnquotedLength(x, s[1..])
  }

  lemma {:induction false} UnquotedLengthStops(x: Syntax, s: string)
    ensures var n := UnquotedLength(x, s); Stops(x, s[n..]) && forall k :: 0 <= k < n ==> !Stops(x, s[k..])
  {
    assert s[0..] == s;
    if !Stops(x, s) {
      UnquotedLengthStops(x, s[1..]);
      assert forall k :: 1 <= k <= |s| ==> s[k..] == s[1..][k - 1..];
    }
  }

  lemma LengthStep(x: Syntax, s: string)
    requires s != [] && s[0] !in " \"'" && FieldEnd(x, s).None?
    ensures UnquotedLength(x, s) == 1 + UnquotedLength(x, s[1..])
  {
    hide FieldEnd;
  }

  lemma LengthEnds(x: Syntax, s: string)
    requires s == [] || s[0] in " \"'" || FieldEnd(x, s).Some?
    ensures UnquotedLength(x, s) == 0
  {
    hide FieldEnd;
  }

  /** Reading goes on to the first space, quote or field, or to the end. */
  lemma UnquotedStops(x: Syntax, s: string)
    ensures var n := UnquotedLength(x, s);
      && (n == |s| || s[n] in " \"'" || FieldEnd(x, s[n..]).Some?)
      && (forall k :: 0 <= k < n ==> s[k] !in " \"'" && FieldEnd(x, s[k..]).None?)
  {
    UnquotedLengthStops(x, s);
    hide FieldEnd, UnquotedLength;
    var n := UnquotedLength(x, s);
    assert n < |s| ==> s[n..][0] == s[n];
    forall k | 0 <= k < n
      ensures s[k] !in " \"'" && FieldEnd(x, s[k..]).None?
    {
      assert !Stops(x, s[k..]) && s[k..][0] == s[k];
    }
  }

  function ReadValue(x: Syntax, s: string): (r: Read)
    ensures r.used <= |s|
  {
    var sp := Spaces(s);
    var t := s[sp..];
    if t != [] && IsQuote(t[0]) then
      var r := ReadQuoted(t[1..], t[0]);
      Read(r.0, [t[0]], sp + 1 + r.1)
    else
      var n := UnquotedLength(x, t);
      Read(RStrip(t[..n]), "", sp + n)
  }

  /** What a reader has so far, continued by a further result. */
  function Onto(value: string, used: nat, r: (string, nat)): (string, nat) {
    (value + r.0, used + r.1)
  }

  lemma ReadNothing(value: string, used: nat, q: char)
    ensures ReadQuoted("", q) == ("", 0) && Onto(value, used, ("", 0)) == (value, used)
  {
    assert value + "" == value;
  }

  /** One step of the reader, with the value read so far in front. */
  lemma ReadStep(value: string, used: nat, s: string, q: char)
    requires s != []
    ensures Onto(value, used, ReadQuoted(s, q)) ==
            if s[0] == '\\' && |s| > 1 && s[1] in {q, '\\'} then Onto(value + [s[1]], used + 2, ReadQuoted(s[2..], q))
            else if s[0] == q then (value, used + 1)
            else Onto(value + [s[0]], used + 1, ReadQuoted(s[1..], q))
  {
    if s[0] == '\\' && |s| > 1 && s[1] in {q, '\\'} {
      var rest := ReadQuoted(s[2..], q);
      assert value + ([s[1]] + rest.0) == value + [s[1]] + rest.0;
    } else if s[0] == q {
      assert value + "" == value;
    } else {
      var rest := ReadQuoted(s[1..], q);
      assert value + ([s[0]] + rest.0) == value + [s[0]] + rest.0;
    }
  }

  // ---------------------------------------------------------------- one token, the whole query

  /** The comparison operator at the start of a value. */
  function Operator(value: string): string {
    if value != [] && value[0] in {'>', '<'}
    then (if |value| > 1 && value[1] == '=' then value[..2] else value[..1])
    else ""
  }

  /** The first colon of a value that has one. */
  function ColonAt(value: string): (i: nat)
    requires ':' in value
    ensures i < |value| && value[i] == ':' && ':' !in value[..i]
  {
    if value[0] == ':' then 0
    else
      var i := ColonAt(value[1..]);
      assert value[..i + 1] == [value[0]] + value[1..][..i];
      i + 1
  }

  /** A keyed field: the key is in the value, up to its first colon, or is followed by a value of its own. */
  function KeyedToken(field: string, value: string, next: string): FieldToken {
    if EndsWithColon(value) then FieldToken(field, next, "=", "", Some(value[..|value| - 1]))
    else if ':' in value then FieldToken(field, value[ColonAt(value) + 1..], "=", "", Some(value[..ColonAt(value)]))
    else FieldToken(field, "", "=", "", Some(value))
  }

  predicate EndsWithColon(value: string) {
    value != [] && value[|value| - 1] == ':'
  }

  function PlainToken(field: string, value: string, quote: string): FieldToken {
    var operator := if field == "raw" then "" else Operator(value);
    if operator != "" then FieldToken(field, Strip(value[|operator|..]), operator, quote, None)
    else FieldToken(field, value, "=", quote, None)
  }

  predicate IsKeyed(field: string) {
    field == "param" || field == "advanced"
  }

  /** The token of a field whose value starts at s, and how much of s it takes. */
  function TokenOf(x: Syntax, field: string, s: string): (r: (FieldToken, nat))
    ensures r.1 <= |s|
  {
    var read := ReadValue(x, s);
    if IsKeyed(field) then
      var next := if EndsWithColon(read.value) then ReadValue(x, s[read.used..]) else Read("", "", 0);
      (KeyedToken(field, read.value, next.value), read.used + next.used)
    else (PlainToken(field, read.value, read.quote), read.used)
  }

  function FieldOf(s: string): string {
    Normalize(LowerName(s[..NameEnd(s)]))
  }

  datatype Parts = Parts(residual: string, fields: seq<FieldToken>)

  /** Everything from here to the end of the query. */
  function ParseFrom(x: Syntax, s: string): Parts
    decreases |s|
  {
    if s == [] then Parts("", [])
    else
      match SearchFrom(x, s, 0)
      case None => Parts(s, [])
      case Some(i) =>
        var from := s[i..];
        var value := from[FieldEnd(x, from).value..];
        var (token, used) := TokenOf(x, FieldOf(from), value);
        var rest := ParseFrom(x, value[used..]);
        Prepend(RStrip(s[..i]), [token], rest)
  }

  function Prepend(residual: string, fields: seq<FieldToken>, rest: Parts): Parts {
    Parts(residual + rest.residual, fields + rest.fields)
  }

  lemma PrependNothing(p: Parts)
    ensures Prepend("", [], p) == p
  {
  }

  lemma PrependAll(residual: string, fields: seq<FieldToken>, text: string)
    ensures Prepend(residual, fields, Parts(text, [])) == Parts(residual + text, fields)
    ensures residual + "" == residual
  {
  }

  lemma PrependTwice(residual: string, fields: seq<FieldToken>, prefix: string, token: FieldToken, p: Parts)
    ensures Prepend(residual, fields, Prepend(prefix, [token], p)) == Prepend(residual + prefix, fields + [token], p)
  {
    assert residual + (prefix + p.residual) == residual + prefix + p.residual;
    assert fields + ([token] + p.fields) == fields + [token] + p.fields;
  }

  function Parse(x: Syntax, raw: string): ParsedQuery {
    var p := ParseFrom(x, raw);
    ParsedQuery(Strip(p.residual), p.fields)
  }

  // ---------------------------------------------------------------- the cursor

  class ParserState {
    const x: Syntax
    const buf: string
    var pos: nat

    constructor (x: Syntax, raw: string)
      ensures this.x == x && buf == raw && pos == 0
    {
      this.x, buf, pos := x, raw, 0;
    }

    predicate Finished()
      reads this
    {
      pos >= |buf|
    }

    function Remaining(): string
      requires pos <= |buf|
      reads this
    {
      buf[pos..]
    }

    method SkipSpaces()
      requires pos <= |buf|
      modifies `pos
      ensures pos == old(pos) + Spaces(buf[old(pos)..]) && pos <= |buf|
    {
      ghost var start := pos;
      while pos < |buf| && buf[pos] == ' '
        invariant start <= pos <= |buf| && Spaces(buf[start..]) == pos - start + Spaces(buf[pos..])
      {
        assert buf[pos..][1..] == buf[pos + 1..];
        pos := pos + 1;
      }
    }

    method ReadQuotedValue(q: char) returns (value: string)
      requires pos <= |buf|
      modifies `pos
      ensures var r := ReadQuoted(buf[old(pos)..], q); value == r.0 && pos == old(pos) + r.1
      ensures pos <= |buf|
    {
      hide ReadQuoted;
      ghost var start, whole := pos, ReadQuoted(buf[pos..], q);
      assert "" + whole.0 == whole.0;
      var open := true;
      value := [];
      while open && pos < |buf|
        invariant start <= pos <= |buf|
        invariant open ==> whole == Onto(value, pos - start, ReadQuoted(buf[pos..], q))
        invariant !open ==> whole == (value, pos - start)
        decreases |buf| - pos
      {
        var ch := buf[pos];
        ReadStep(value, pos - start, buf[pos..], q);
        assert buf[pos..][1..] == buf[pos + 1..] && (pos + 1 < |buf| ==> buf[pos..][2..] == buf[pos + 2..]);
        pos := pos + 1;
        if ch == '\\' && pos < |buf| && buf[pos] in {q, '\\'} {
          value := value + [buf[pos]];
          pos := pos + 1;
        } else if ch == q {
          open := false;
        } else {
          value := value + [ch];
        }
      }
      ReadNothing(value, pos - start, q);
    }

    method ReadUnquotedValue() returns (value: string)
      requires pos <= |buf|
      modifies `pos
      ensures var n := UnquotedLength(x, buf[old(pos)..]); value == RStrip(buf[old(pos)..][..n]) && pos == old(pos) + n
      ensures pos <= |buf|
    {
      hide FieldEnd, RStrip, UnquotedLength;
      ghost var start := pos;
      value := [];
      while pos < |buf| && buf[pos] != ' ' && !IsQuote(buf[pos]) && FieldEnd(x, buf[pos..]).None?
        invariant start <= pos <= |buf| && value == buf[start..pos]
        invariant UnquotedLength(x, buf[start..]) == pos - start + UnquotedLength(x, buf[pos..])
      {
        assert buf[pos..][0] == buf[pos] && buf[pos..][1..] == buf[pos + 1..];
        LengthStep(x, buf[pos..]);
        value := value + [buf[pos]];
        pos := pos + 1;
      }
      assert pos < |buf| ==> buf[pos..][0] == buf[pos];
      LengthEnds(x, buf[pos..]);
      assert value == buf[start..][..pos - start];
      value := RStrip(value);
    }

    /** Reads one value; the cursor stops right after it and never passes the end. */
    method ReadFieldValue() returns (value: string, quote: string)
      requires pos <= |buf|
      modifies `pos
      ensures var r := ReadValue(x, buf[old(pos)..]); value == r.value && quote == r.quote && pos == old(pos) + r.used
      ensures pos <= |buf|
    {
      hide FieldEnd, RStrip, Spaces;
      SkipSpaces();
      assert buf[old(pos)..][pos - old(pos)..] == buf[pos..];
      quote := "";
      if pos < |buf| && IsQuote(buf[pos]) {
        quote := [buf[pos]];
        assert buf[pos..][1..] == buf[pos + 1..];
        pos := pos + 1;
        value := ReadQuotedValue(quote[0]);
      } else {
        value := ReadUnquotedValue();
      }
    }

    /** Reads the value, and for a keyed field the key, of a field whose pattern was just consumed. */
    method ReadToken(field: string) returns (token: FieldToken)
      requires pos <= |buf|
      modifies `pos
      ensures (token, pos - old(pos)) == TokenOf(x, field, buf[old(pos)..])
      ensures old(pos) <= pos <= |buf|
    {
      hide ReadValue, KeyedToken, PlainToken;
      var value, quote := ReadFieldValue();
      if IsKeyed(field) {
        var next := "";
        if EndsWithColon(value) {
          assert buf[old(pos)..][pos - old(pos)..] == buf[pos..];
          next, quote := ReadFieldValue();
        }
        token := KeyedToken(field, value, next);
      } else {
        token := PlainToken(field, value, quote);
      }
    }
  }

  lemma ParseStep(x: Syntax, s: string)
    requires s != [] && SearchFrom(x, s, 0).Some?
    ensures var i := SearchFrom(x, s, 0).value;
      var value := s[i..][FieldEnd(x, s[i..]).value..];
      var r := TokenOf(x, FieldOf(s[i..]), value);
      ParseFrom(x, s) == Prepend(RStrip(s[..i]), [r.0], ParseFrom(x, value[r.1..]))
  {
    hide FieldEnd, TokenOf, FieldOf, SearchFrom, RStrip, Prepend;
  }

  lemma ParseRest(x: Syntax, s: string)
    requires SearchFrom(x, s, 0).None?
    ensures ParseFrom(x, s) == Parts(s, [])
  {
    hide SearchFrom;
  }

  lemma ParseNothing(x: Syntax)
    ensures ParseFrom(x, "") == Parts("", [])
  {
  }

  /** The main loop: every round consumes a field pattern, so the cursor advances and the loop ends. */
  method ParseFieldedQuery(x: Syntax, raw: string) returns (parsed: ParsedQuery)
    ensures parsed == Parse(x, raw)
  {
    hide FieldEnd, TokenOf, FieldOf, SearchFrom, RStrip, Prepend, ParseFrom;
    var state := new ParserState(x, raw);
    var residual, fields := "", [];
    assert raw[0..] == raw;
    PrependNothing(ParseFrom(x, raw));
    ParseNothing(x);
    var more := true;
    while more && !state.Finished()
      invariant state.x == x && state.buf == raw && state.pos <= |raw|
      invariant more ==> ParseFrom(x, raw) == Prepend(residual, fields, ParseFrom(x, raw[state.pos..]))
      invariant !more ==> ParseFrom(x, raw) == Parts(residual, fields)
      decreases more, |raw| - state.pos
    {
      var remaining := state.Remaining();
      var found := SearchFrom(x, remaining, 0);
      if found.None? {
        ParseRest(x, remaining);
        PrependAll(residual, fields, remaining);
        residual := residual + remaining;
        more := false;
      } else {
        ParseStep(x, remaining);
        var from := remaining[found.value..];
        state.pos := state.pos + found.value + FieldEnd(x, from).value;
        assert from[FieldEnd(x, from).value..] == raw[state.pos..];
        ghost var at := state.pos;
        var token := state.ReadToken(FieldOf(from));
        assert raw[at..][state.pos - at..] == raw[state.pos..];
        PrependTwice(residual, fields, RStrip(remaining[..found.value]), token, ParseFrom(x, raw[state.pos..]));
        residual := residual + RStrip(remaining[..found.value]);
        fields := fields + [token];
      }
    }
    PrependAll(residual, fields, "");
    assert more ==> raw[state.pos..] == "";
    parsed := ParsedQuery(Strip(residual), fields);
  }

  /** A token takes a name character and a colon at least: there are at most half as many tokens as characters. */
  lemma {:induction false} FieldsAdvance(x: Syntax, s: string)
    requires Regular(x)
    ensures 2 * |ParseFrom(x, s).fields| <= |s|
    decreases |s|
  {
    if s != [] {
      match SearchFrom(x, s, 0)
      case None =>
      case Some(i) =>
        var from := s[i..];
        FieldIsTwo(x, from);
        var value := from[FieldEnd(x, from).value..];
        FieldsAdvance(x, value[TokenOf(x, FieldOf(from), value).1..]);
    }
  }

  lemma FieldIsTwo(x: Syntax, s: string)
    requires Regular(x) && FieldEnd(x, s).Some?
    ensures FieldEnd(x, s).value >= 2
  {
    assert Folded(s[..NameEnd(s)]) != [];
  }

  // ---------------------------------------------------------------- round trips

  /** Backslash before the quote character and before every backslash. */
  function Escaped(v: string, q: char): string {
    if v == [] then [] else (if v[0] == q || v[0] == '\\' then ['\\', v[0]] else [v[0]]) + Escaped(v[1..], q)
  }

  /** A quoted value reads back, and the cursor stops just after the closing quote. */
  lemma {:induction false} QuotedReadsBack(v: string, q: char, rest: string)
    requires IsQuote(q)
    ensures ReadQuoted(Escaped(v, q) + [q] + rest, q) == (v, |Escaped(v, q)| + 1)
  {
    if v == [] {
      assert (Escaped(v, q) + [q] + rest)[0] == q;
    } else {
      QuotedReadsBack(v[1..], q, rest);
      EscapedStep(v, q, rest);
      assert [v[0]] + v[1..] == v;
    }
  }

  lemma EscapedStep(v: string, q: char, rest: string)
    requires v != []
    ensures var s, tail := Escaped(v, q) + [q] + rest, Escaped(v[1..], q) + [q] + rest;
      if v[0] == q || v[0] == '\\' then
        && |s| > 2 && s[0] == '\\' && s[1] == v[0] && s[2..] == tail
        && |Escaped(v, q)| == |Escaped(v[1..], q)| + 2
      else |s| > 1 && s[0] == v[0] && s[1..] == tail && |Escaped(v, q)| == |Escaped(v[1..], q)| + 1
  {
    var head := if v[0] == q || v[0] == '\\' then ['\\', v[0]] else [v[0]];
    var tail := Escaped(v[1..], q) + [q] + rest;
    assert Escaped(v, q) == head + Escaped(v[1..], q);
    hide Escaped;
    assert Escaped(v, q) + [q] + rest == head + tail;
    assert (head + tail)[|head|..] == tail;
  }

  /** The names under which a field can be asked for. */
  predicate Means(name: string, field: string) {
    match field
    case "prompt" => name in {"prompt", "positive"}
    case "generation_time" => name in {"generation_time", "gen_time"}
    case "tool" => name in {"tool", "source"}
    case "cfg_scale" => name in {"cfg_scale", "cfg"}
    case "model" => name in {"model", "checkpoint"}
    case "aspect_ratio" => name in {"aspect_ratio", "ratio"}
    case "path" => name in {"path", "folder", "location"}
    case "lora" => name in {"lora", "resource"}
    case _ =>
      && name == field
      && name !in {"positive", "gen_time", "source", "cfg", "checkpoint", "ratio", "folder", "location", "resource"}
  }

  lemma NormalizeIff(name: string, field: string)
    ensures Normalize(name) == field <==> Means(name, field)
  {
  }

  /** A field name in any letter case. */
  ghost predicate Spells(x: Syntax, typed: string, field: string) {
    exists name :: name in x.names && SameLetters(typed, name) && Means(name, field)
  }

  /** Without spaces and quotes, and without a field or the name of one at the end. */
  ghost predicate HoldsNoStop(x: Syntax, v: string) {
    forall k :: 0 <= k < |v| ==>
      v[k] !in " \"'" && FieldEnd(x, v[k..]).None? && FieldEnd(x, v[k..] + ":").None?
  }

  /** A trimmed value that can stand unquoted. */
  ghost predicate Unbroken(x: Syntax, v: string) {
    v != [] && !IsSpace(v[0]) && !IsSpace(v[|v| - 1]) && HoldsNoStop(x, v)
  }

  predicate Compares(operator: string) {
    operator in {">", "<", ">=", "<="}
  }

  /** The value as it is typed, with its comparison in front. */
  function Said(t: FieldToken): string {
    if t.operator == "=" then t.value else t.operator + t.value
  }

  /** No comparison, or one of four with a trimmed value that does not lengthen it. */
  predicate SaysPlainly(t: FieldToken) {
    if t.operator == "=" then t.field == "raw" || t.value == [] || t.value[0] !in "<>"
    else
      && Compares(t.operator) && t.field != "raw" && Strip(t.value) == t.value
      && (|t.operator| == 1 && t.value != [] ==> t.value[0] != '=')
  }

  /** The tokens that can be typed: a key and a quoted value, a quoted value, or an unquoted one. */
  ghost predicate Canonical(x: Syntax, t: FieldToken) {
    if t.field in {"param", "advanced"} then
      t.operator == "=" && t.quoteChar == "" && t.key.Some? && KeyIsPlain(x, t.key.value)
      && (t.key.value != [] ==> !IsSpace(t.key.value[0]))
    else
      t.key == None && SaysPlainly(t)
      && (t.quoteChar in {"\"", "'"} || (t.quoteChar == "" && Unbroken(x, Said(t))))
  }

  /** What is typed behind the field name and its colon. */
  function Body(t: FieldToken): string {
    if t.key.Some? then t.key.value + ":" + (['"'] + Escaped(t.value, '"') + ['"'])
    else if t.quoteChar == "" then Said(t)
    else t.quoteChar + Escaped(Said(t), t.quoteChar[0]) + t.quoteChar
  }

  /** Whether a text can stand behind a token: an unquoted value is followed by a space or nothing. */
  predicate Follows(t: FieldToken, text: string) {
    t.key == None && t.quoteChar == "" && text != [] ==> text[0] == ' '
  }

  /** Free text in front of every token, and behind the last. */
  function WriteAll(texts: seq<string>, names: seq<string>, tokens: seq<FieldToken>): string
    requires |texts| == |tokens| + 1 && |names| == |tokens|
    decreases |tokens|
  {
    if tokens == [] then texts[0]
    else texts[0] + (names[0] + ":" + (Body(tokens[0]) + WriteAll(texts[1..], names[1..], tokens[1..])))
  }

  /** The free text, without the spaces in front of the tokens. */
  function FreeText(texts: seq<string>): string
    requires texts != []
  {
    if |texts| == 1 then texts[0] else RStrip(texts[0]) + FreeText(texts[1..])
  }

  ghost predicate NoField(x: Syntax, text: string) {
    forall k :: 0 <= k <= |text| ==> !FieldStarts(x, text, k)
  }

  /** Free text without a field; in front of a token it ends in a space, and so it starts behind an unquoted one. */
  ghost predicate WellSpaced(x: Syntax, texts: seq<string>, tokens: seq<FieldToken>)
    requires |texts| == |tokens| + 1
  {
    && (forall i :: 0 <= i < |texts| ==> NoField(x, texts[i]))
    && (forall i :: 0 <= i < |tokens| && texts[i] != [] ==> texts[i][|texts[i]| - 1] == ' ')
    && (forall i :: 0 <= i < |tokens| ==> Follows(tokens[i], texts[i + 1]))
    && (forall i :: 0 <= i < |tokens| - 1 && tokens[i].key == None && tokens[i].quoteChar == "" ==> texts[i + 1] != [])
  }

  lemma {:induction false} LowerNameIs(typed: string, name: string)
    requires SameLetters(typed, name) && IsLowerName(name)
    ensures LowerName(typed) == name
  {
    if typed != [] {
      assert AsciiLower(typed[0]) == name[0];
      assert SameLetters(typed[1..], name[1..]) by {
        assert forall i :: 0 <= i < |typed[1..]| ==> typed[1..][i] == typed[i + 1] && name[1..][i] == name[i + 1];
      }
      LowerNameIs(typed[1..], name[1..]);
      assert [name[0]] + name[1..] == name;
    }
  }

  lemma FoldedIs(typed: string, name: string)
    requires SameLetters(typed, name) && IsLowerName(name)
    ensures Folded(typed) == name
  {
    forall i | 0 <= i < |typed|
      ensures FoldLetter(typed[i]) == name[i]
    {
      assert AsciiLower(typed[i]) == AsciiLower(name[i]);
    }
  }

  /** A field name with its colon is recognized, in any letter case, when no white space follows. */
  lemma NameIsRead(x: Syntax, typed: string, name: string, rest: string)
    requires Regular(x) && name in x.names && SameLetters(typed, name) && rest != [] && !IsSpace(rest[0])
    ensures FieldEnd(x, typed + ":" + rest) == Some(|typed| + 1)
    ensures NameEnd(typed + ":" + rest) == |typed| && LowerName(typed) == name
  {
    hide NameEnd, LowerName, Folded, Skip, IsLowerName, SameLetters;
    assert IsName(name);
    hide Regular;
    LowerNameIs(typed, name);
    FoldedIs(typed, name);
    TypedEndsAtColon(typed, name, ":" + rest);
    NameAndColon(typed, rest);
    SkipsNone(":" + rest);
    SkipsNone(rest);
  }

  lemma NameAndColon(typed: string, rest: string)
    ensures var s := typed + ":" + rest;
      s == typed + (":" + rest) && s[..|typed|] == typed && s[|typed|..] == ":" + rest && s[|typed| + 1..] == rest
  {
  }

  lemma SkipsNone(s: string)
    requires s != [] && !IsSpace(s[0])
    ensures Skip(s) == 0
  {
  }

  lemma {:induction false} TypedEndsAtColon(typed: string, name: string, rest: string)
    requires SameLetters(typed, name) && IsLowerName(name) && rest != [] && rest[0] == ':'
    ensures NameEnd(typed + rest) == |typed|
  {
    if typed == [] {
      assert typed + rest == rest;
    } else {
      assert AsciiLower(typed[0]) == AsciiLower(name[0]);
      assert SameLetters(typed[1..], name[1..]) by {
        assert forall i :: 0 <= i < |typed[1..]| ==> typed[1..][i] == typed[i + 1] && name[1..][i] == name[i + 1];
      }
      TypedEndsAtColon(typed[1..], name[1..], rest);
      assert (typed + rest)[1..] == typed[1..] + rest;
    }
  }

  /** A field name with its colon is recognized when a quote follows. */
  lemma FieldIsRead(x: Syntax, field: string, q: char, rest: string)
    requires Regular(x) && field in x.names && IsQuote(q)
    ensures FieldEnd(x, field + (":" + [q] + rest)) == Some(|field| + 1)
    ensures NameEnd(field + (":" + [q] + rest)) == |field| && LowerName(field) == field
  {
    hide FieldEnd, NameEnd, LowerName, Regular;
    NameIsRead(x, field, field, [q] + rest);
    Regrouped(field, [q], rest);
  }

  lemma Regrouped(field: string, q: string, rest: string)
    ensures field + ":" + (q + rest) == field + (":" + q + rest)
  {
  }

  lemma NoName(x: Syntax, s: string)
    requires Regular(x) && s != [] && (IsSpace(s[0]) || s[0] == ':')
    ensures FieldEnd(x, s) == None
  {
    assert NameEnd(s) == 0 && Folded(s[..0]) == "";
  }

  /** What stands behind a comparison is trimmed, and a raw value is never a comparison. */
  lemma ComparisonReads(field: string, operator: string, rest: string, quote: string)
    requires Compares(operator) && (|operator| == 1 && rest != [] ==> rest[0] != '=')
    ensures PlainToken(field, operator + rest, quote) ==
            if field == "raw" then FieldToken(field, operator + rest, "=", quote, None)
            else FieldToken(field, Strip(rest), operator, quote, None)
  {
    OperatorReads(operator, rest);
    hide Strip, Operator;
  }

  // ---------------------------------------------------------------- typed queries read back

  lemma SaidReads(t: FieldToken)
    requires SaysPlainly(t)
    ensures PlainToken(t.field, Said(t), t.quoteChar) == FieldToken(t.field, t.value, t.operator, t.quoteChar, None)
  {
    if t.operator != "=" {
      OperatorReads(t.operator, t.value);
      hide Strip, Operator, Compares;
    }
  }

  lemma OperatorReads(operator: string, value: string)
    requires Compares(operator) && (|operator| == 1 && value != [] ==> value[0] != '=')
    ensures Operator(operator + value) == operator && (operator + value)[|operator|..] == value
  {
    var v := operator + value;
    assert v[..|operator|] == operator;
    assert v[0] == operator[0] && (|v| > 1 ==> v[1] == if |operator| == 1 then value[0] else operator[1]);
  }

  lemma QuotedTokenReads(x: Syntax, t: FieldToken, rest: string)
    requires Canonical(x, t) && t.key == None && t.quoteChar != ""
    ensures TokenOf(x, t.field, Body(t) + rest) == (t, |Body(t)|)
  {
    SaidReads(t);
    hide FieldEnd, ReadValue, Escaped, PlainToken, SaysPlainly, Said;
    var q := t.quoteChar[0];
    QuotedRead(x, Said(t), q, rest);
    assert t.quoteChar == [q];
    assert Body(t) + rest == [q] + Escaped(Said(t), q) + [q] + rest;
  }

  lemma QuotedRead(x: Syntax, v: string, q: char, rest: string)
    requires IsQuote(q)
    ensures ReadValue(x, [q] + Escaped(v, q) + [q] + rest) == Read(v, [q], |Escaped(v, q)| + 2)
  {
    hide ReadQuoted, Escaped, UnquotedLength;
    var s := [q] + Escaped(v, q) + [q] + rest;
    QuotedReadsBack(v, q, rest);
    assert s[1..] == Escaped(v, q) + [q] + rest;
    assert Spaces(s) == 0 && s[0..] == s;
  }

  lemma {:induction false} NameEndsBeforeSpace(u: string, rest: string)
    requires rest != [] ==> rest[0] == ' '
    ensures NameEnd(u + rest) == NameEnd(u)
  {
    if u == [] {
      assert u + rest == rest;
    } else if !IsSpace(u[0]) && u[0] != ':' {
      NameEndsBeforeSpace(u[1..], rest);
      assert (u + rest)[1..] == u[1..] + rest;
    }
  }

  lemma {:induction false} SkipEndsInside(u: string, rest: string)
    requires u != [] && !IsSpace(u[|u| - 1])
    ensures Skip(u + rest) == Skip(u) < |u|
  {
    if IsSpace(u[0]) {
      SkipEndsInside(u[1..], rest);
      assert (u + rest)[1..] == u[1..] + rest;
    }
  }

  lemma {:induction false} NameEndsAtFirstColon(u: string)
    ensures NameEnd(u + ":") == NameEnd(u)
  {
    if u == [] {
      assert u + ":" == ":";
    } else if !IsSpace(u[0]) && u[0] != ':' {
      NameEndsAtFirstColon(u[1..]);
      assert (u + ":")[1..] == u[1..] + ":";
    }
  }

  /** No field starts in an unbroken value, whatever follows behind a space. */
  lemma NoFieldInside(x: Syntax, u: string, rest: string)
    requires u != [] && !IsSpace(u[|u| - 1]) && (rest != [] ==> rest[0] == ' ')
    requires FieldEnd(x, u).None? && FieldEnd(x, u + ":").None?
    ensures FieldEnd(x, u + rest).None?
  {
    hide NameEnd, Folded, Skip;
    var n := NameEnd(u);
    NameEndsBeforeSpace(u, rest);
    CutInside(u, rest, n);
    if n < |u| {
      SkipEndsInside(u[n..], rest);
    } else {
      NameEndsAtFirstColon(u);
      CutInside(u, ":", n);
      SkipsNone(":");
    }
  }

  lemma CutInside(u: string, rest: string, n: nat)
    requires n <= |u|
    ensures (u + rest)[..n] == u[..n] && (u + rest)[n..] == u[n..] + rest
    ensures n == |u| ==> u[..n] == u && u[n..] + rest == rest
  {
  }

  lemma {:induction false} UnbrokenLength(x: Syntax, v: string, rest: string)
    requires HoldsNoStop(x, v) && (v != [] ==> !IsSpace(v[|v| - 1])) && (rest != [] ==> rest[0] == ' ')
    ensures UnquotedLength(x, v + rest) == |v|
  {
    hide FieldEnd, HoldsNoStop;
    if v == [] {
      assert v + rest == rest;
    } else {
      UnbrokenTail(x, v);
      UnbrokenLength(x, v[1..], rest);
      NoFieldInside(x, v, rest);
      CutInside(v, rest, 1);
      hide UnquotedLength;
      LengthStep(x, v + rest);
    }
  }

  lemma UnbrokenTail(x: Syntax, v: string)
    requires v != [] && HoldsNoStop(x, v)
    ensures HoldsNoStop(x, v[1..])
    ensures v[0] !in " \"'" && FieldEnd(x, v).None? && FieldEnd(x, v + ":").None?
  {
    hide FieldEnd;
    assert v[0..] == v;
    assert forall k :: 0 <= k < |v[1..]| ==> v[1..][k..] == v[k + 1..];
  }

  lemma UnquotedTokenReads(x: Syntax, t: FieldToken, rest: string)
    requires Canonical(x, t) && t.key == None && t.quoteChar == "" && (rest != [] ==> rest[0] == ' ')
    ensures TokenOf(x, t.field, Body(t) + rest) == (t, |Body(t)|)
  {
    hide FieldEnd, PlainToken, SaysPlainly, Said, UnquotedLength, HoldsNoStop, ReadValue;
    SaidReads(t);
    var v := Said(t);
    UnbrokenTail(x, v);
    UnbrokenLength(x, v, rest);
    UnquotedRead(x, v, rest);
  }

  lemma UnquotedRead(x: Syntax, v: string, rest: string)
    requires v != [] && v[0] != ' ' && !IsQuote(v[0]) && !IsSpace(v[|v| - 1]) && UnquotedLength(x, v + rest) == |v|
    ensures ReadValue(x, v + rest) == Read(v, "", |v|)
  {
    hide UnquotedLength;
    var s := v + rest;
    assert Spaces(s) == 0 && s[0..] == s && s[..|v|] == v && RStrip(v) == v;
  }

  lemma KeyedTokenReads(x: Syntax, t: FieldToken, rest: string)
    requires Regular(x) && Canonical(x, t) && t.key.Some?
    ensures TokenOf(x, t.field, Body(t) + rest) == (t, |Body(t)|)
  {
    hide Escaped, Regular, KeyIsPlain, TokenOf;
    var key := t.key.value;
    PlainKeyReads(x, t.field, key, t.value, '"', rest);
    var tail := ['"'] + Escaped(t.value, '"') + ['"'];
    assert Body(t) + rest == key + ":" + (tail + rest);
  }

  /** A typed token reads back, and the cursor stops just behind it. */
  lemma TokenReads(x: Syntax, t: FieldToken, rest: string)
    requires Regular(x) && Canonical(x, t) && Follows(t, rest)
    ensures TokenOf(x, t.field, Body(t) + rest) == (t, |Body(t)|)
  {
    hide Canonical, TokenOf, Body, Regular;
    if t.key.Some? {
      KeyedTokenReads(x, t, rest);
    } else if t.quoteChar == "" {
      UnquotedTokenReads(x, t, rest);
    } else {
      QuotedTokenReads(x, t, rest);
    }
  }

  lemma BodyStarts(x: Syntax, t: FieldToken)
    requires Canonical(x, t)
    ensures Body(t) != [] && !IsSpace(Body(t)[0])
  {
    hide Stops, FieldEnd, KeyIsPlain, Escaped, SaysPlainly, Said;
  }

  /** A typed field name, its colon and its body are taken for that field. */
  lemma TypedTokenReads(x: Syntax, typed: string, t: FieldToken, rest: string)
    requires Regular(x) && Canonical(x, t) && Spells(x, typed, t.field)
    ensures var s := typed + ":" + (Body(t) + rest);
      && FieldEnd(x, s) == Some(|typed| + 1) && FieldOf(s) == t.field
      && s[|typed| + 1..] == Body(t) + rest
  {
    BodyStarts(x, t);
    hide FieldEnd, Body, LowerName, NameEnd, Canonical, Means, Regular, SameLetters, Normalize;
    var name :| name in x.names && SameLetters(typed, name) && Means(name, t.field);
    var after := Body(t) + rest;
    assert after[0] == Body(t)[0];
    NameIsRead(x, typed, name, after);
    NormalizeIff(name, t.field);
    NameAndColon(typed, after);
  }

  lemma {:induction false} NameEndsInText(u: string, rest: string)
    requires u != [] && u[|u| - 1] == ' '
    ensures NameEnd(u + rest) == NameEnd(u) < |u|
  {
    if !IsSpace(u[0]) && u[0] != ':' {
      NameEndsInText(u[1..], rest);
      assert (u + rest)[1..] == u[1..] + rest;
    }
  }

  lemma {:induction false} SkipEndsInText(u: string, rest: string)
    requires u != [] && rest != [] && !IsSpace(rest[0])
    ensures Skip(u + rest) == Skip(u) <= |u|
  {
    if IsSpace(u[0]) {
      assert (u + rest)[1..] == u[1..] + rest;
      if u[1..] == [] {
        assert (u + rest)[1..] == rest;
      } else {
        SkipEndsInText(u[1..], rest);
      }
    }
  }

  /** In front of a token that stands behind a space, free text holds no field of its own. */
  lemma NoFieldInText(x: Syntax, u: string, rest: string)
    requires u != [] && u[|u| - 1] == ' ' && rest != [] && !IsSpace(rest[0]) && rest[0] != ':'
    requires FieldEnd(x, u).None?
    ensures FieldEnd(x, u + rest).None?
  {
    var n := NameEnd(u);
    NameEndsInText(u, rest);
    hide NameEnd, Folded;
    CutInside(u, rest, n);
    SkipEndsInText(u[n..], rest);
    hide Skip;
    var k := n + Skip(u[n..]);
    assert k < |u| ==> (u + rest)[k] == u[k];
    assert k == |u| ==> (u + rest)[k] == rest[0];
  }

  lemma TextBeforeToken(x: Syntax, text: string, rest: string)
    requires NoField(x, text) && (text != [] ==> text[|text| - 1] == ' ')
    requires rest != [] && !IsSpace(rest[0]) && rest[0] != ':'
    ensures forall k :: 0 <= k < |text| ==> !FieldStarts(x, text + rest, k)
  {
    hide FieldEnd;
    forall k | 0 <= k < |text|
      ensures !FieldStarts(x, text + rest, k)
    {
      assert !FieldStarts(x, text, k);
      assert (text + rest)[k..] == text[k..] + rest && (k > 0 ==> (text + rest)[k - 1] == text[k - 1]);
      if FieldEnd(x, text[k..]).None? {
        NoFieldInText(x, text[k..], rest);
      }
    }
  }

  lemma TypedStarts(x: Syntax, typed: string, field: string)
    requires Regular(x) && Spells(x, typed, field)
    ensures typed != [] && !IsSpace(typed[0]) && typed[0] != ':'
  {
    var name :| name in x.names && SameLetters(typed, name) && Means(name, field);
    hide Means;
    assert IsName(name) && AsciiLower(typed[0]) == AsciiLower(name[0]);
  }

  /** The first token is found behind the text in front of it. */
  lemma FirstTokenParses(x: Syntax, text: string, typed: string, t: FieldToken, rest: string)
    requires Regular(x) && Canonical(x, t) && Spells(x, typed, t.field) && Follows(t, rest)
    requires NoField(x, text) && (text != [] ==> text[|text| - 1] == ' ')
    ensures ParseFrom(x, text + (typed + ":" + (Body(t) + rest))) == Prepend(RStrip(text), [t], ParseFrom(x, rest))
  {
    hide FieldEnd, RStrip, TokenOf, Body, FieldOf, SearchFrom, Canonical, Spells, NoField, ParseFrom, Prepend;
    var token := typed + ":" + (Body(t) + rest);
    var s, n := text + token, |text|;
    TypedStarts(x, typed, t.field);
    TypedTokenReads(x, typed, t, rest);
    TokenReads(x, t, rest);
    TextBeforeToken(x, text, token);
    assert s[n..] == token && s[..n] == text && (n > 0 ==> s[n - 1] == ' ');
    assert FieldStarts(x, s, n);
    SearchFinds(x, s, 0, n);
    ParseStep(x, s);
    assert (Body(t) + rest)[|Body(t)|..] == rest;
  }

  lemma TextParses(x: Syntax, text: string)
    requires NoField(x, text)
    ensures ParseFrom(x, text) == Parts(text, [])
  {
    SearchIsLeftmost(x, text, 0);
    hide FieldStarts, SearchFrom;
    ParseRest(x, text);
  }

  ghost predicate Typed(x: Syntax, texts: seq<string>, names: seq<string>, tokens: seq<FieldToken>) {
    && |texts| == |tokens| + 1 && |names| == |tokens|
    && (forall i :: 0 <= i < |tokens| ==> Canonical(x, tokens[i]) && Spells(x, names[i], tokens[i].field))
    && WellSpaced(x, texts, tokens)
  }

  lemma TypedRest(x: Syntax, texts: seq<string>, names: seq<string>, tokens: seq<FieldToken>)
    requires Typed(x, texts, names, tokens) && tokens != []
    ensures Typed(x, texts[1..], names[1..], tokens[1..])
    ensures Follows(tokens[0], WriteAll(texts[1..], names[1..], tokens[1..]))
  {
    hide Canonical, Spells, NoField, Body;
    assert Follows(tokens[0], texts[1]);
  }

  lemma {:induction false} TypedParses(x: Syntax, texts: seq<string>, names: seq<string>, tokens: seq<FieldToken>)
    requires Regular(x) && Typed(x, texts, names, tokens)
    ensures ParseFrom(x, WriteAll(texts, names, tokens)) == Parts(FreeText(texts), tokens)
    decreases |tokens|
  {
    hide Canonical, Spells, NoField, Body, Follows, ParseFrom, RStrip;
    if tokens == [] {
      TextParses(x, texts[0]);
    } else {
      TypedRest(x, texts, names, tokens);
      TypedParses(x, texts[1..], names[1..], tokens[1..]);
      FirstTokenParses(x, texts[0], names[0], tokens[0], WriteAll(texts[1..], names[1..], tokens[1..]));
      assert [tokens[0]] + tokens[1..] == tokens;
    }
  }

  /**
   * A typed query parses back to its tokens, whatever the letter case and the alias of the field names, quoted or not,
   * compared or keyed; and its free text remains, without the spaces in front of the tokens.
   */
  lemma TypedQueryParsesBack(x: Syntax, texts: seq<string>, names: seq<string>, tokens: seq<FieldToken>)
    requires Regular(x) && Typed(x, texts, names, tokens)
    ensures Parse(x, WriteAll(texts, names, tokens)) == ParsedQuery(Strip(FreeText(texts)), tokens)
  {
    TypedParses(x, texts, names, tokens);
    hide Typed, ParseFrom, WriteAll, FreeText, Strip;
  }

  /** When nothing follows the colon, the next value is read, and without a colon there is none. */
  lemma KeyAloneIs(field: string, key: string, next: string)
    requires ':' !in key
    ensures KeyedToken(field, key, next) == FieldToken(field, "", "=", "", Some(key))
    ensures KeyedToken(field, key + ":", next) == FieldToken(field, next, "=", "", Some(key))
  {
    assert (key + ":")[..|key|] == key;
  }

  /** A key ends at the first colon, and the rest is its value. */
  lemma KeyedTokenIs(field: string, key: string, rest: string, next: string)
    requires ':' !in key && rest != [] && rest[|rest| - 1] != ':'
    ensures KeyedToken(field, key + ":" + rest, next) == FieldToken(field, rest, "=", "", Some(key))
  {
    var value := key + ":" + rest;
    assert value[|key|] == ':' && forall k :: 0 <= k < |key| ==> value[k] == key[k];
    ColonIsFirst(value, |key|);
    assert ColonAt(value) == |key|;
    hide ColonAt;
    assert value[|key| + 1..] == rest && value[..|key|] == key;
  }

  // ---------------------------------------------------------------- where a field starts

  predicate SpaceBetween(s: string, i: nat, j: nat) {
    forall k :: i <= k < j <= |s| ==> IsSpace(s[k])
  }

  /** A name up to n, white space up to a colon at k, and all white space behind it, up to e. */
  predicate Shaped(x: Syntax, s: string, n: nat, k: nat, e: nat) {
    && n <= k < e <= |s|
    && Folded(s[..n]) in x.names && SpaceBetween(s, n, k) && s[k] == ':' && SpaceBetween(s, k + 1, e)
    && (e < |s| ==> !IsSpace(s[e]))
  }

  lemma {:induction false} NameEndIs(s: string, n: nat)
    requires n <= |s| && (n < |s| ==> IsSpace(s[n]) || s[n] == ':')
    requires forall i :: 0 <= i < n ==> !IsSpace(s[i]) && s[i] != ':'
    ensures NameEnd(s) == n
  {
    if n > 0 {
      NameEndIs(s[1..], n - 1);
    }
  }

  lemma SkipOne(s: string, n: nat)
    requires n < |s|
    ensures Skip(s[n..]) == if IsSpace(s[n]) then 1 + Skip(s[n + 1..]) else 0
  {
    assert s[n..][1..] == s[n + 1..];
  }

  lemma {:induction false} SkipEnds(s: string, n: nat, k: nat)
    requires n <= k <= |s| && SpaceBetween(s, n, k) && (k < |s| ==> !IsSpace(s[k]))
    ensures Skip(s[n..]) == k - n
    decreases k - n
  {
    if n < |s| {
      SkipOne(s, n);
      if n < k {
        SkipEnds(s, n + 1, k);
      }
    }
  }

  lemma {:induction false} SkipsSpace(s: string, n: nat)
    requires n <= |s|
    ensures var k := n + Skip(s[n..]); SpaceBetween(s, n, k) && (k < |s| ==> !IsSpace(s[k]))
    decreases |s| - n
  {
    if n < |s| {
      SkipOne(s, n);
      if IsSpace(s[n]) {
        SkipsSpace(s, n + 1);
      }
    }
  }

  lemma NamesHoldNoSpace(x: Syntax, s: string)
    requires Regular(x) && Folded(s) in x.names
    ensures forall i :: 0 <= i < |s| ==> !IsSpace(s[i]) && s[i] != ':'
  {
    assert IsLowerName(Folded(s));
    assert forall i :: 0 <= i < |s| ==> Folded(s)[i] == FoldLetter(s[i]);
  }

  lemma ShapedEnds(x: Syntax, s: string, n: nat, k: nat, e: nat)
    requires Regular(x) && Shaped(x, s, n, k, e)
    ensures FieldEnd(x, s) == Some(e)
  {
    hide NameEnd, Skip, Folded, Regular;
    NamesHoldNoSpace(x, s[..n]);
    assert forall i :: 0 <= i < n ==> s[..n][i] == s[i];
    assert n < k ==> IsSpace(s[n]);
    NameEndIs(s, n);
    SkipEnds(s, n, k);
    SkipEnds(s, k + 1, e);
    hide SpaceBetween, IsSpace;
  }

  lemma EndIsShaped(x: Syntax, s: string)
    requires FieldEnd(x, s).Some?
    ensures exists n: nat, k: nat :: Shaped(x, s, n, k, FieldEnd(x, s).value)
  {
    hide NameEnd, Skip, Folded, SpaceBetween, IsSpace;
    var n, k := NameEnd(s), ColonPlace(s);
    SkipsSpace(s, n);
    SkipsSpace(s, k + 1);
    assert Shaped(x, s, n, k, Behind(s, k));
  }

  /** A field starts with one of the names, in any letter case, and a colon, with white space around it or not. */
  lemma FieldEndIff(x: Syntax, s: string, e: nat)
    requires Regular(x)
    ensures FieldEnd(x, s) == Some(e) <==> exists n: nat, k: nat :: Shaped(x, s, n, k, e)
  {
    hide FieldEnd, Shaped, Regular;
    if FieldEnd(x, s) == Some(e) {
      EndIsShaped(x, s);
    }
    if n: nat, k: nat :| Shaped(x, s, n, k, e) {
      ShapedEnds(x, s, n, k, e);
    }
  }

  ghost predicate ShapedAt(x: Syntax, s: string, i: nat) {
    i <= |s| && exists n: nat, k: nat, e: nat :: Shaped(x, s[i..], n, k, e)
  }

  /** A field starts only where no word goes on: the end of a longer word is no field name. */
  lemma FieldStartsIff(x: Syntax, s: string, i: nat)
    requires Regular(x) && i <= |s|
    ensures FieldStarts(x, s, i) <==> (i > 0 ==> !x.word(s[i - 1])) && ShapedAt(x, s, i)
  {
    hide FieldEnd, Shaped, Regular;
    var t := s[i..];
    if FieldEnd(x, t).Some? {
      EndIsShaped(x, t);
    }
    if n: nat, k: nat, e: nat :| Shaped(x, t, n, k, e) {
      ShapedEnds(x, t, n, k, e);
    }
  }

  // ---------------------------------------------------------------- keyed fields

  /** A key that no space, quote or nested field name interrupts before its colon. */
  ghost predicate KeyIsPlain(x: Syntax, key: string) {
    forall k :: 0 <= k <= |key| ==> !Stops(x, (key + ":")[k..])
  }

  lemma {:induction false} NameEndsBeforeColon(u: string, rest: string)
    ensures NameEnd(u + ":" + rest) == NameEnd(u + ":") <= |u|
  {
    if u != [] && !IsSpace(u[0]) && u[0] != ':' {
      NameEndsBeforeColon(u[1..], rest);
      assert (u + ":" + rest)[1..] == u[1..] + ":" + rest && (u + ":")[1..] == u[1..] + ":";
    }
  }

  lemma {:induction false} SkipEndsBeforeColon(u: string, rest: string)
    ensures Skip(u + ":" + rest) == Skip(u + ":") <= |u|
  {
    if u != [] && IsSpace(u[0]) {
      SkipEndsBeforeColon(u[1..], rest);
      assert (u + ":" + rest)[1..] == u[1..] + ":" + rest && (u + ":")[1..] == u[1..] + ":";
    }
  }

  /** Whether a field starts in front of a colon does not depend on what follows the colon. */
  lemma FieldBeforeColon(x: Syntax, u: string, rest: string)
    ensures FieldEnd(x, u + ":" + rest).Some? <==> FieldEnd(x, u + ":").Some?
  {
    var s, t := u + ":" + rest, u + ":";
    NameEndsBeforeColon(u, rest);
    var n := NameEnd(s);
    assert s[..n] == u[..n] == t[..n];
    assert s[n..] == u[n..] + ":" + rest && t[n..] == u[n..] + ":";
    SkipEndsBeforeColon(u[n..], rest);
    hide NameEnd, Skip, Folded;
    var k := n + Skip(s[n..]);
    assert k < |t| && s[k] == t[k];
  }

  lemma StopBeforeColon(x: Syntax, key: string, rest: string, k: nat)
    requires k <= |key|
    ensures Stops(x, (key + ":" + rest)[k..]) <==> Stops(x, (key + ":")[k..])
  {
    var u := key[k..];
    assert (key + ":" + rest)[k..] == u + ":" + rest && (key + ":")[k..] == u + ":";
    FieldBeforeColon(x, u, rest);
    hide FieldEnd;
    assert (u + ":" + rest)[0] == (u + ":")[0];
  }

  /** A keyed token written key:"value" reads back, for every key and value, iff nothing interrupts the key. */
  lemma KeyReadsBackIff(x: Syntax, key: string, v: string, q: char)
    requires Regular(x) && IsQuote(q)
    ensures var rest := [q] + Escaped(v, q) + [q];
      TokenOf(x, "param", key + ":" + rest).0 == FieldToken("param", v, "=", "", Some(key)) <==> KeyIsPlain(x, key)
  {
    hide FieldEnd, Escaped, ReadQuoted, Skip, TokenOf, Stops;
    var rest := [q] + Escaped(v, q) + [q];
    if KeyIsPlain(x, key) {
      PlainKeyReads(x, "param", key, v, q, "");
      assert rest + "" == rest;
    } else if key != [] && (key[0] == ' ' || IsQuote(key[0])) {
      QuotedOrBlankKeyDiffers(x, key, rest);
    } else {
      InterruptedKeyDiffers(x, key, rest);
    }
  }

  lemma PlainKeyReads(x: Syntax, field: string, key: string, v: string, q: char, behind: string)
    requires Regular(x) && IsKeyed(field) && IsQuote(q) && KeyIsPlain(x, key)
    ensures var tail := [q] + Escaped(v, q) + [q];
      TokenOf(x, field, key + ":" + (tail + behind)) ==
        (FieldToken(field, v, "=", "", Some(key)), |key| + 1 + |tail|)
  {
    hide FieldEnd, Escaped, ReadQuoted, Skip;
    var rest := [q] + Escaped(v, q) + [q] + behind;
    var s := key + ":" + rest;
    forall k | 0 <= k <= |key|
      ensures !Stops(x, s[k..])
    {
      StopBeforeColon(x, key, rest, k);
    }
    assert s[0..] == s;
    UnquotedLengthStops(x, s);
    assert s[|key| + 1..] == rest && Stops(x, s[|key| + 1..]);
    var n := UnquotedLength(x, s);
    assert n == |key| + 1 && Spaces(s) == 0;
    assert s[..n] == key + ":" && RStrip(key + ":") == key + ":";
    QuotedReadsBack(v, q, behind);
    assert rest[1..] == Escaped(v, q) + [q] + behind;
    assert (key + ":")[..|key|] == key;
  }

  lemma InterruptedKeyDiffers(x: Syntax, key: string, rest: string)
    requires Regular(x) && (key != [] ==> key[0] != ' ' && !IsQuote(key[0])) && !KeyIsPlain(x, key)
    ensures TokenOf(x, "param", key + ":" + rest).0.key != Some(key)
  {
    hide FieldEnd, Skip;
    var s := key + ":" + rest;
    var n := UnquotedLength(x, s);
    UnquotedLengthStops(x, s);
    assert Spaces(s) == 0 && s[0..] == s;
    ColonDoesNotStop(x, key, rest);
    var k :| 0 <= k <= |key| && Stops(x, (key + ":")[k..]);
    StopBeforeColon(x, key, rest, k);
    assert n < |key|;
  }

  /** What is read lies so far ahead of the source that its first colon, or its end, comes before the source's. */
  predicate ColonComesEarly(value: string, s: string, ahead: nat)
    requires ':' in s
  {
    if ':' in value then ColonAt(value) + ahead <= ColonAt(s) else |value| + ahead <= ColonAt(s)
  }

  /** The first m characters are no colons. */
  predicate NoColon(s: string, m: nat) {
    m <= |s| && forall k :: 0 <= k < m ==> s[k] != ':'
  }

  lemma {:induction false} ColonIsFirst(s: string, i: nat)
    requires i < |s| && s[i] == ':'
    ensures ':' in s && ColonAt(s) <= i
  {
    if s[0] != ':' {
      ColonIsFirst(s[1..], i - 1);
    }
  }

  lemma NoneBeforeFirst(s: string)
    requires ':' in s
    ensures NoColon(s, ColonAt(s))
  {
    forall k | 0 <= k < ColonAt(s)
      ensures s[k] != ':'
    {
      assert s[..ColonAt(s)][k] == s[k];
    }
  }

  lemma {:induction false} ColonAfter(s: string, m: nat)
    requires ':' in s && NoColon(s, m)
    ensures ':' in s[m..] && ColonAt(s) == m + ColonAt(s[m..])
  {
    if m == 0 {
      assert s[0..] == s;
    } else {
      assert s == [s[0]] + s[1..] && s[1..][m - 1..] == s[m..];
      ColonAfter(s[1..], m - 1);
    }
  }

  lemma {:induction false} QuotedColonComesEarly(s: string, q: char)
    requires IsQuote(q) && ':' in s
    ensures ColonComesEarly(ReadQuoted(s, q).0, s, 0)
    decreases |s|
  {
    if s[0] == '\\' && |s| > 1 && s[1] in {q, '\\'} {
      NextReadComesEarly(s, 2, q, s[1]);
    } else if s[0] != q && s[0] != ':' {
      NextReadComesEarly(s, 1, q, s[0]);
    }
  }

  lemma {:induction false} NextReadComesEarly(s: string, m: nat, q: char, c: char)
    requires IsQuote(q) && ':' in s && m >= 1 && NoColon(s, m) && c != ':'
    ensures ColonComesEarly([c] + ReadQuoted(s[m..], q).0, s, 0)
    decreases |s|, 0
  {
    var r := ReadQuoted(s[m..], q).0;
    ColonAfter(s, m);
    QuotedColonComesEarly(s[m..], q);
    hide ReadQuoted;
    assert ([c] + r)[1..] == r;
    if ':' in r {
      ColonAfter([c] + r, 1);
    }
  }

  lemma {:induction false} PrefixColonComesEarly(value: string, s: string)
    requires ':' in s && value <= s
    ensures ColonComesEarly(value, s, 0)
  {
    if value != [] && value[0] != ':' {
      assert value == [value[0]] + value[1..] && s == [s[0]] + s[1..];
      assert value[1..] <= s[1..];
      PrefixColonComesEarly(value[1..], s[1..]);
    }
  }

  lemma LaterStartComesEarlier(value: string, s: string, m: nat)
    requires ':' in s && NoColon(s, m) && ':' in s[m..] && ColonComesEarly(value, s[m..], 0)
    ensures ColonComesEarly(value, s, m)
  {
    ColonAfter(s, m);
  }

  lemma {:induction false} SpacesAreSpaces(s: string)
    ensures forall k :: 0 <= k < Spaces(s) ==> s[k] == ' '
  {
    if s != [] && s[0] == ' ' {
      SpacesAreSpaces(s[1..]);
      assert forall k :: 1 <= k < |s| ==> s[k] == s[1..][k - 1];
    }
  }

  lemma ReadValueComesEarly(x: Syntax, s: string)
    requires s != [] && (s[0] == ' ' || IsQuote(s[0])) && ':' in s
    ensures ColonComesEarly(ReadValue(x, s).value, s, 1)
  {
    var sp := Spaces(s);
    SpacesAreSpaces(s);
    ColonAfter(s, sp);
    assert s[sp..][0] == s[sp];
    if IsQuote(s[sp]) {
      ColonAfter(s, sp + 1);
      QuotedComesEarly(x, s, sp);
    } else {
      UnquotedComesEarly(x, s, sp);
    }
  }

  lemma QuotedComesEarly(x: Syntax, s: string, sp: nat)
    requires sp == Spaces(s) < |s| && IsQuote(s[sp]) && ':' in s && NoColon(s, sp + 1) && ':' in s[sp + 1..]
    ensures ColonComesEarly(ReadValue(x, s).value, s, 1)
  {
    hide ReadQuoted, ReadValue, Spaces;
    QuotedColonComesEarly(s[sp + 1..], s[sp]);
    LaterStartComesEarlier(ReadQuoted(s[sp + 1..], s[sp]).0, s, sp + 1);
    QuotedValue(x, s);
  }

  lemma QuotedValue(x: Syntax, s: string)
    requires Spaces(s) < |s| && IsQuote(s[Spaces(s)])
    ensures ReadValue(x, s).value == ReadQuoted(s[Spaces(s) + 1..], s[Spaces(s)]).0
  {
    hide ReadQuoted, Spaces;
    assert s[Spaces(s)..][1..] == s[Spaces(s) + 1..];
  }

  lemma UnquotedComesEarly(x: Syntax, s: string, sp: nat)
    requires 0 < sp == Spaces(s) < |s| && !IsQuote(s[sp]) && ':' in s && NoColon(s, sp) && ':' in s[sp..]
    ensures ColonComesEarly(ReadValue(x, s).value, s, 1)
  {
    var t := s[sp..];
    var n := UnquotedLength(x, t);
    RStripCuts(t[..n]);
    assert ReadValue(x, s).value == RStrip(t[..n]);
    hide RStrip, UnquotedLength, ReadValue;
    PrefixColonComesEarly(RStrip(t[..n]), t);
    LaterStartComesEarlier(RStrip(t[..n]), s, sp);
  }

  /** A token whose value runs ahead of the source has another key. */
  lemma EarlyColonMeansOtherKey(field: string, value: string, next: string, key: string, rest: string)
    requires ':' in key + ":" + rest && ColonComesEarly(value, key + ":" + rest, 1)
    ensures KeyedToken(field, value, next).key != Some(key)
  {
    var s := key + ":" + rest;
    ColonIsFirst(s, |key|);
    if ':' in value {
      var c := ColonAt(value);
      assert c < |key|;
      NoneBeforeFirst(s);
      assert s[c] == key[c];
    }
  }

  lemma QuotedOrBlankKeyDiffers(x: Syntax, key: string, rest: string)
    requires key != [] && (key[0] == ' ' || IsQuote(key[0]))
    ensures TokenOf(x, "param", key + ":" + rest).0.key != Some(key)
  {
    var s := key + ":" + rest;
    assert s[|key|] == ':' && s[0] == key[0];
    ReadValueComesEarly(x, s);
    var read := ReadValue(x, s);
    var next := if EndsWithColon(read.value) then ReadValue(x, s[read.used..]) else Read("", "", 0);
    EarlyColonMeansOtherKey("param", read.value, next.value, key, rest);
    hide ReadValue;
  }

  lemma ColonDoesNotStop(x: Syntax, key: string, rest: string)
    requires Regular(x)
    ensures !Stops(x, (key + ":" + rest)[|key|..])
  {
    assert (key + ":" + rest)[|key|..][0] == ':';
    NoName(x, (key + ":" + rest)[|key|..]);
  }

  /** A key that is itself a field name is not read: the value ends where the inner field starts. */
  lemma FieldNameIsNoKey(x: Syntax, name: string, v: string, q: char)
    requires Regular(x) && name in x.names && IsQuote(q)
    ensures TokenOf(x, "param", name + (":" + [q] + (Escaped(v, q) + [q]))) ==
            (FieldToken("param", "", "=", "", Some("")), 0)
  {
    hide FieldEnd, Escaped, LowerName, NameEnd;
    var s := name + (":" + [q] + (Escaped(v, q) + [q]));
    FieldIsRead(x, name, q, Escaped(v, q) + [q]);
    assert s[0..] == s && s[0] == name[0] && IsLowerName(name);
    assert Stops(x, s) && UnquotedLength(x, s) == 0 && Spaces(s) == 0;
    assert s[..0] == "" && RStrip("") == "";
  }
}
