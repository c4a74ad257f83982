/**
 * The condition builder of backend/fielded_search_parser.py: every filter and the free text compiled to SQL conditions
 * over image_metadata, with a trigram candidate lookup in front of the slow LIKE scans.
 */
module FieldedSearch {
  import opened Ordering
  import opened Prelude
  import opened QueryTokens
  import opened Text
  import Like

  // ---------------------------------------------------------------- tables

  /** The columns that are read as text; a NULL is missing from a row. */
  datatype Column =
    | Prompt | NegativePrompt | Name | Tool | Sampler | Scheduler | Model | Vae | Date | GenerationTime | FilePath
    | Seed | AspectRatio | ModelHash | RawText | Json

  datatype NumberColumn =
    | Width | Height | Steps | CfgScale | ClipSkip | HiresUpscale | HiresSteps | Denoising | Ensd | AestheticScore

  /** A Python int or a finite float. */
  datatype Number = Whole(whole: int) | Fraction(fraction: real) {
    function Size(): real {
      match this
      case Whole(n) => n as real
      case Fraction(x) => x
    }
  }

  datatype SqlValue = TextValue(text: string) | NumberValue(number: Number)

  /** One image_metadata row. */
  datatype MetadataRow = MetadataRow(text: map<Column, string>, numbers: map<NumberColumn, real>)

  /** One image_resources row. */
  datatype ResourceRow = ResourceRow(
    path: string, kind: string, name: Option<string>, resourceHash: Option<string>, hash: Option<string>)

  /** image_metadata by id, the resources, and the (normalized name, normalized hash) identities of live assets. */
  datatype Database = Database(
    rows: map<int, MetadataRow>, resources: set<ResourceRow>, identities: set<(string, string)>)

  /**
   * What Python and SQLite decide: the tokenizer's case folding, the name normalization, the value of a decimal digit,
   * int() and float() of a string (None for an error or an infinite result), the text a number is compared as, the
   * word characters, full-text matching of a query, the JSON spelling of a key and JSON lookup of a path.
   */
  datatype Engine = Engine(
    fold: char -> char, normalize: string -> string, digit: char -> Option<nat>,
    asInt: string -> Option<int>, asFloat: string -> Option<real>, render: Number -> string,
    word: char -> bool, fullText: (string, MetadataRow) -> bool,
    dumps: string -> string, extract: (string, string) -> Option<SqlValue>)

  /** The tokenizer folds at least what LIKE folds. */
  ghost predicate FoldsLetters(e: Engine) {
    forall c, d :: AsciiLower(c) == AsciiLower(d) ==> e.fold(c) == e.fold(d)
  }

  // ---------------------------------------------------------------- trigram phrase queries

  function Trigram(e: Engine, s: string, i: nat): (char, char, char)
    requires i + 3 <= |s|
  {
    (e.fold(s[i]), e.fold(s[i + 1]), e.fold(s[i + 2]))
  }

  /** The trigrams of the phrase stand one after another in the text, from position i. */
  predicate PhraseAt(e: Engine, phrase: string, t: string, i: nat) {
    && |phrase| >= 3 && i + |phrase| <= |t|
    && forall k :: 0 <= k <= |phrase| - 3 ==> Trigram(e, t, i + k) == Trigram(e, phrase, k)
  }

  ghost predicate PhraseIn(e: Engine, phrase: string, t: string) {
    exists i :: PhraseAt(e, phrase, t, i)
  }

  /** Consecutive trigrams are a folded substring, nothing weaker. */
  lemma PhraseIsFoldedSubstring(e: Engine, phrase: string, t: string, i: nat)
    requires |phrase| >= 3 && i + |phrase| <= |t|
    ensures PhraseAt(e, phrase, t, i) <==> forall k :: 0 <= k < |phrase| ==> e.fold(t[i + k]) == e.fold(phrase[k])
  {
    if PhraseAt(e, phrase, t, i) {
      forall k | 0 <= k < |phrase|
        ensures e.fold(t[i + k]) == e.fold(phrase[k])
      {
        var j := if k <= |phrase| - 3 then k else |phrase| - 3;
        assert Trigram(e, t, i + j) == Trigram(e, phrase, j);
      }
    }
  }

  lemma LetterAt(v: string, t: string, i: nat, k: nat)
    requires OccursAt(v, t, i) && k < |v|
    ensures AsciiLower(t[i + k]) == AsciiLower(v[k])
  {
    assert t[i..i + |v|][k] == t[i + k];
  }

  lemma SliceImpliesPhrase(e: Engine, v: string, t: string, i: nat, a: nat, b: nat)
    requires FoldsLetters(e) && a + 3 <= b <= |v| && OccursAt(v, t, i)
    ensures PhraseAt(e, v[a..b], t, i + a)
  {
    forall k | 0 <= k < b - a
      ensures e.fold(t[i + a + k]) == e.fold(v[a..b][k])
    {
      LetterAt(v, t, i, a + k);
    }
    PhraseIsFoldedSubstring(e, v[a..b], t, i + a);
  }

  /** Whatever LIKE finds, the phrase query of the stripped value finds. */
  lemma SubstringImpliesPhrase(e: Engine, v: string, t: string)
    requires FoldsLetters(e) && |Strip(v)| >= 3 && Occurs(v, t)
    ensures PhraseIn(e, Strip(v), t)
  {
    var a, b := StripCuts(v);
    var i :| OccursAt(v, t, i);
    SliceImpliesPhrase(e, v, t, i, a, b);
  }

  function Doubled(v: string): string {
    if v == [] then [] else (if v[0] == '"' then "\"\"" else [v[0]]) + Doubled(v[1..])
  }

  /** An FTS5 string literal: quotes inside are doubled. */
  function Quoted(v: string): string {
    "\"" + Doubled(v) + "\""
  }

  /** How FTS5 reads the inside of a string literal up to its closing quote. */
  function ReadLiteral(s: string): Option<(string, string)> {
    if s == [] then None
    else if s[0] == '"' && (|s| == 1 || s[1] != '"') then Some(([], s[1..]))
    else
      var width := if s[0] == '"' then 2 else 1;
      match ReadLiteral(s[width..])
      case None => None
      case Some(p) => Some(([s[0]] + p.0, p.1))
  }

  /** The inside of a literal, read up to its closing quote, is the value; what follows stays unread. */
  lemma {:induction false} InsideReadsBack(v: string)
    ensures ReadLiteral(Doubled(v) + "\"") == Some((v, ""))
  {
    if v == [] {
      assert Doubled(v) + "\"" == "\"";
      assert "\""[1..] == "";
    } else {
      InsideReadsBack(v[1..]);
      var head := if v[0] == '"' then "\"\"" else [v[0]];
      var rest := Doubled(v[1..]) + "\"";
      var s := Doubled(v) + "\"";
      assert s == head + rest;
      assert s[|head|..] == rest;
      assert ReadLiteral(s) == Some(([v[0]] + v[1..], ""));
      assert [v[0]] + v[1..] == v;
    }
  }

  lemma QuotedReadsBack(v: string)
    ensures ReadLiteral(Quoted(v)[1..]) == Some((v, ""))
  {
    InsideReadsBack(v);
    hide ReadLiteral, Doubled;
    assert Quoted(v)[1..] == Doubled(v) + "\"";
  }

  // ---------------------------------------------------------------- conditions

  datatype Cond =
    | LikeCond(column: Column, param: nat)
    | EqualCond(column: Column, param: nat)
    | TrigramIds(column: Column, param: nat)
    | Alias(param: nat)
    | TrigramOrAliasIds(column: Column, param: nat, alias: nat)
    | NumberCond(number: NumberColumn, operator: string, param: nat)
    | TextCompare(column: Column, operator: string, param: nat)
    | DayCompare(column: Column, operator: string, param: nat)
    | ResourceExists(lora: bool, names: Option<nat>, resourceHashes: nat, hashes: nat)
    | JsonPresent(path: nat)
    | JsonEquals(path: nat, param: nat)
    | BadEscape(param: nat)
    | FullText(param: nat)
    | Both(left: Cond, right: Cond)
    | Either(left: Cond, right: Cond)
    | Group(all: bool, parts: seq<Cond>)

  predicate Bound(c: Cond, n: nat) {
    match c
    case TrigramOrAliasIds(_, p, a) => p < n && a < n
    case ResourceExists(_, p, q, h) => (p.Some? ==> p.value < n) && q < n && h < n
    case JsonPresent(k) => k < n
    case JsonEquals(k, p) => k < n && p < n
    case Both(l, r) => Bound(l, n) && Bound(r, n)
    case Either(l, r) => Bound(l, n) && Bound(r, n)
    case Group(_, parts) => forall i :: 0 <= i < |parts| ==> Bound(parts[i], n)
    case _ => c.param < n
  }

  /** SQL has no empty parenthesized group, and LIKE raises for an ESCAPE of more than one character. */
  predicate WellFormed(c: Cond) {
    match c
    case BadEscape(_) => false
    case Both(l, r) => WellFormed(l) && WellFormed(r)
    case Either(l, r) => WellFormed(l) && WellFormed(r)
    case Group(_, parts) => parts != [] && forall i :: 0 <= i < |parts| ==> WellFormed(parts[i])
    case _ => true
  }

  type Params = map<nat, SqlValue>

  predicate Binds(params: Params, n: nat) {
    forall k :: 0 <= k < n ==> k in params
  }

  /** A bound value where SQL wants a text; the builder binds numbers only where they are compared. */
  function TextOf(v: SqlValue): string {
    match v
    case TextValue(s) => s
    case NumberValue(_) => ""
  }

  predicate LikeHolds(row: MetadataRow, column: Column, pattern: string) {
    column in row.text && Like.Matches(pattern, row.text[column])
  }

  /** rowid is returned by the trigram table's MATCH on this column. */
  ghost predicate TrigramHit(e: Engine, db: Database, id: int, column: Column, query: string) {
    id in db.rows && column in db.rows[id].text && query != [] && query[0] == '"'
    && ReadLiteral(query[1..]).Some? && PhraseIn(e, ReadLiteral(query[1..]).value.0, db.rows[id].text[column])
  }

  function Lower(s: string): string {
    seq(|s|, i requires 0 <= i < |s| => AsciiLower(s[i]))
  }

  predicate AliasHolds(db: Database, row: MetadataRow, name: string) {
    && ModelHash in row.text && Lower(row.text[ModelHash]) != ""
    && (name, Lower(row.text[ModelHash])) in db.identities
  }

  /** The operators between two numbers. */
  predicate NumbersCompare(operator: string, a: real, b: real) {
    match operator
    case "<" => a < b
    case "<=" => a <= b
    case ">" => a > b
    case ">=" => a >= b
    case _ => a == b
  }

  /** The operators between two texts, by code point. */
  predicate TextsCompare(operator: string, a: string, b: string) {
    match operator
    case "<" => StringLess(a, b)
    case "<=" => !StringLess(b, a)
    case ">" => StringLess(b, a)
    case ">=" => !StringLess(a, b)
    case _ => a == b
  }

  predicate NumberHolds(row: MetadataRow, column: NumberColumn, operator: string, v: SqlValue) {
    column in row.numbers && v.NumberValue? && NumbersCompare(operator, row.numbers[column], v.number.Size())
  }

  /** A number bound against a TEXT column is compared as text. */
  predicate TextCompareHolds(e: Engine, row: MetadataRow, column: Column, operator: string, v: SqlValue) {
    column in row.text && v.NumberValue? && TextsCompare(operator, row.text[column], e.render(v.number))
  }

  /** substr(..., 1, 10) */
  function Day(s: string): string {
    s[..if |s| < 10 then |s| else 10]
  }

  predicate DayHolds(row: MetadataRow, column: Column, operator: string, day: string) {
    column in row.text && TextsCompare(operator, Day(row.text[column]), day)
  }

  predicate LikeOption(s: Option<string>, pattern: string) {
    s.Some? && Like.Matches(pattern, s.value)
  }

  predicate ResourceHolds(
    r: ResourceRow, row: MetadataRow, lora: bool, names: Option<string>, hash: string, other: string) {
    && FilePath in row.text && r.path == row.text[FilePath] && (lora ==> r.kind == "lora")
    && (|| (names.Some? && LikeOption(r.name, names.value))
        || LikeOption(r.resourceHash, hash) || LikeOption(r.hash, other))
  }

  /** json_extract of a valid document; None is SQL NULL. */
  function JsonValue(e: Engine, row: MetadataRow, path: string): Option<SqlValue> {
    if Json in row.text then e.extract(row.text[Json], path) else None
  }

  function PatternOf(params: Params, p: Option<nat>): Option<string>
    requires p.Some? ==> p.value in params
  {
    if p.Some? then Some(TextOf(params[p.value])) else None
  }

  /** A condition for the row with this id; NULL comparisons count as false, as WHERE treats them. */
  ghost predicate Eval(e: Engine, db: Database, params: Params, n: nat, c: Cond, id: int)
    requires Bound(c, n) && Binds(params, n) && id in db.rows
    decreases c
  {
    match c
    case LikeCond(column, p) => LikeHolds(db.rows[id], column, TextOf(params[p]))
    case EqualCond(column, p) => column in db.rows[id].text && params[p] == TextValue(db.rows[id].text[column])
    case TrigramIds(column, p) => TrigramHit(e, db, id, column, TextOf(params[p]))
    case Alias(p) => AliasHolds(db, db.rows[id], TextOf(params[p]))
    case TrigramOrAliasIds(column, p, a) =>
      id in (set k | k in db.rows && TrigramHit(e, db, k, column, TextOf(params[p])))
          + (set k | k in db.rows && AliasHolds(db, db.rows[k], TextOf(params[a])))
    case NumberCond(column, operator, p) => NumberHolds(db.rows[id], column, operator, params[p])
    case TextCompare(column, operator, p) => TextCompareHolds(e, db.rows[id], column, operator, params[p])
    case DayCompare(column, operator, p) => DayHolds(db.rows[id], column, operator, TextOf(params[p]))
    case ResourceExists(lora, names, p, q) =>
      exists r :: r in db.resources
        && ResourceHolds(r, db.rows[id], lora, PatternOf(params, names), TextOf(params[p]), TextOf(params[q]))
    case JsonPresent(p) => JsonValue(e, db.rows[id], TextOf(params[p])).Some?
    case JsonEquals(p, q) => JsonValue(e, db.rows[id], TextOf(params[p])) == Some(params[q])
    case BadEscape(_) => false
    case FullText(p) => e.fullText(TextOf(params[p]), db.rows[id])
    case Both(l, r) => Eval(e, db, params, n, l, id) && Eval(e, db, params, n, r, id)
    case Either(l, r) => Eval(e, db, params, n, l, id) || Eval(e, db, params, n, r, id)
    case Group(all, parts) =>
      if all then forall i :: 0 <= i < |parts| ==> Eval(e, db, params, n, parts[i], id)
      else exists i :: 0 <= i < |parts| && Eval(e, db, params, n, parts[i], id)
  }

  lemma LeafIsUnchanged(e: Engine, db: Database, before: Params, m: nat, after: Params, n: nat, c: Cond, id: int)
    requires m <= n && Bound(c, m) && Binds(before, m) && Binds(after, n) && id in db.rows
    requires forall k :: 0 <= k < m ==> after[k] == before[k]
    requires !c.Both? && !c.Either? && !c.Group?
    ensures Bound(c, n) && Eval(e, db, after, n, c, id) == Eval(e, db, before, m, c, id)
  {
    hide LikeHolds, TrigramHit, AliasHolds, NumberHolds, TextCompareHolds, DayHolds, ResourceHolds, JsonValue, TextOf;
  }

  /** Later parameters do not change what an earlier condition says. */
  lemma {:induction false} LaterParamsChangeNothing(
    e: Engine, db: Database, before: Params, m: nat, after: Params, n: nat, c: Cond, id: int)
    requires m <= n && Bound(c, m) && Binds(before, m) && Binds(after, n) && id in db.rows
    requires forall k :: 0 <= k < m ==> after[k] == before[k]
    ensures Bound(c, n) && Eval(e, db, after, n, c, id) == Eval(e, db, before, m, c, id)
    decreases c
  {
    match c
    case Both(l, r) =>
      LaterParamsChangeNothing(e, db, before, m, after, n, l, id);
      LaterParamsChangeNothing(e, db, before, m, after, n, r, id);
    case Either(l, r) =>
      LaterParamsChangeNothing(e, db, before, m, after, n, l, id);
      LaterParamsChangeNothing(e, db, before, m, after, n, r, id);
    case Group(all, parts) =>
      forall i | 0 <= i < |parts|
        ensures Bound(parts[i], n) && Eval(e, db, after, n, parts[i], id) == Eval(e, db, before, m, parts[i], id)
      {
        LaterParamsChangeNothing(e, db, before, m, after, n, parts[i], id);
      }
    case _ => LeafIsUnchanged(e, db, before, m, after, n, c, id);
  }

  // ---------------------------------------------------------------- what a filter value means

  ghost predicate TextMeans(row: MetadataRow, column: Column, v: string) {
    column in row.text && Occurs(v, row.text[column])
  }

  /** A model filter also finds images whose hash is a known hash of that model name. */
  ghost predicate ModelMeans(e: Engine, db: Database, row: MetadataRow, v: string) {
    TextMeans(row, Model, v) || ('*' !in v && AliasHolds(db, row, e.normalize(v)))
  }

  /** Stars in a path or raw filter stand for any run of characters; the value may start and end anywhere. */
  ghost predicate PatternMeans(row: MetadataRow, column: Column, v: string) {
    column in row.text
    && if Like.EndsWithStar(v) then Occurs(v[..|v| - 1], row.text[column])
       else if '*' !in v then Occurs(v, row.text[column])
       else Like.Glob("*" + v + "*", row.text[column])
  }

  /** The values a phrase query may narrow. */
  predicate Selective(v: string) {
    |Strip(v)| >= 3 && '*' !in v
  }

  /** Narrowing by candidate ids changes nothing: "trigram AND like" is "like". */
  lemma NarrowedLike(e: Engine, db: Database, id: int, column: Column, v: string)
    requires FoldsLetters(e) && id in db.rows && Selective(v)
    ensures TrigramHit(e, db, id, column, Quoted(Strip(v)))
            && LikeHolds(db.rows[id], column, "%" + Like.Escape(v) + "%")
       <==> TextMeans(db.rows[id], column, v)
  {
    var row := db.rows[id];
    if column in row.text {
      Like.ContainsPattern(v, row.text[column]);
      QuotedReadsBack(Strip(v));
      if Occurs(v, row.text[column]) {
        SubstringImpliesPhrase(e, v, row.text[column]);
      }
    }
  }

  lemma PathPattern(row: MetadataRow, column: Column, v: string)
    ensures LikeHolds(row, column, "%" + Like.Pattern(v) + "%") <==> PatternMeans(row, column, v)
  {
    if column in row.text {
      var t := row.text[column];
      if Like.EndsWithStar(v) {
        var base := v[..|v| - 1];
        assert "%" + Like.Pattern(v) + "%" == "%" + (Like.Escape(base) + "%%");
        Like.PercentSkips(Like.Escape(base) + "%%", t);
        Like.ContainsPattern(base, t);
        assert "%" + Like.Escape(base) + "%" == "%" + (Like.Escape(base) + "%");
        Like.PercentSkips(Like.Escape(base) + "%", t);
        forall i | 0 <= i <= |t|
          ensures Like.Matches(Like.Escape(base) + "%%", t[i..]) == Like.Matches(Like.Escape(base) + "%", t[i..])
        {
          Like.LiteralConsumes(base, "%%", t[i..]);
          Like.LiteralConsumes(base, "%", t[i..]);
          if |base| <= |t[i..]| {
            Like.AnythingMatches(t[i..][|base|..]);
            assert "%%"[1..] == "%";
          }
        }
      } else if '*' !in v {
        Like.ContainsPattern(v, t);
      } else {
        StarredEnds(v);
        Like.StarPatternIsGlob("*" + v + "*", t);
      }
    }
  }

  lemma StarredEnds(v: string)
    ensures Like.StarsToPercents(Like.Escape("*" + v + "*")) == "%" + Like.StarsToPercents(Like.Escape(v)) + "%"
  {
    assert ("*" + v + "*")[1..] == v + "*";
    var p := Like.Escape(v + "*");
    assert Like.Escape("*" + v + "*") == "*" + p && ("*" + p)[1..] == p;
    StarredEnd(v);
  }

  lemma {:induction false} StarredEnd(v: string)
    ensures Like.StarsToPercents(Like.Escape(v + "*")) == Like.StarsToPercents(Like.Escape(v)) + "%"
  {
    if v == [] {
      assert "" + "*" == "*";
    } else {
      StarredEnd(v[1..]);
      assert (v + "*")[1..] == v[1..] + "*";
      var head := if Like.IsSpecial(v[0]) then ['\\', v[0]] else [v[0]];
      StarsOfConcat(head, Like.Escape(v[1..] + "*"));
      StarsOfConcat(head, Like.Escape(v[1..]));
    }
  }

  lemma {:induction false} StarsOfConcat(a: string, b: string)
    ensures Like.StarsToPercents(a + b) == Like.StarsToPercents(a) + Like.StarsToPercents(b)
  {
    if a == [] {
      assert a + b == b;
    } else {
      StarsOfConcat(a[1..], b);
      var head := if a[0] == '*' then ['%'] else [a[0]];
      var x, y := Like.StarsToPercents(a[1..]), Like.StarsToPercents(b);
      assert Like.StarsToPercents(a + b) == head + (x + y) by {
        assert (a + b)[1..] == a[1..] + b && (a + b)[0] == a[0];
      }
      assert Like.StarsToPercents(a) + y == head + x + y;
    }
  }

  // ---------------------------------------------------------------- splitting a value

  /** Where a left-to-right reader of a value stands: inside a quotation, or just after a backslash. */
  datatype Scan = Scan(quote: Option<char>, escaped: bool)

  const NEUTRAL := Scan(None, false)

  function ScanStep(s: Scan, c: char): Scan {
    if s.escaped then s.(escaped := false)
    else if c == '\\' then s.(escaped := true)
    else if s.quote.Some? then (if s.quote.value == c then NEUTRAL else s)
    else if c == '"' || c == '\'' then s.(quote := Some(c))
    else s
  }

  function ScanOf(v: string): Scan {
    if v == [] then NEUTRAL else ScanStep(ScanOf(v[..|v| - 1]), v[|v| - 1])
  }

  predicate Cuts(s: Scan, c: char, delimiter: char) {
    s == NEUTRAL && c == delimiter && c !in {'\\', '"', '\''}
  }

  /** The pieces between the delimiters that are neither quoted nor escaped. */
  function Segments(v: string, delimiter: char): (r: seq<string>)
    ensures r != []
  {
    if v == [] then [[]]
    else
      var rest, c := Segments(v[..|v| - 1], delimiter), v[|v| - 1];
      if Cuts(ScanOf(v[..|v| - 1]), c, delimiter) then rest + [[]]
      else rest[..|rest| - 1] + [rest[|rest| - 1] + [c]]
  }

  function Joined(parts: seq<string>, delimiter: char): string
    requires parts != []
  {
    if |parts| == 1 then parts[0] else Joined(parts[..|parts| - 1], delimiter) + [delimiter] + parts[|parts| - 1]
  }

  lemma JoinedPush(parts: seq<string>, delimiter: char)
    requires parts != []
    ensures Joined(parts + [[]], delimiter) == Joined(parts, delimiter) + [delimiter]
  {
    assert (parts + [[]])[..|parts|] == parts;
  }

  lemma JoinedExtend(parts: seq<string>, c: char, delimiter: char)
    requires parts != []
    ensures Joined(parts[..|parts| - 1] + [parts[|parts| - 1] + [c]], delimiter) == Joined(parts, delimiter) + [c]
  {
    var front, last := parts[..|parts| - 1], parts[|parts| - 1];
    assert (front + [last + [c]])[..|front|] == front;
    if |parts| > 1 {
      var head := Joined(front, delimiter) + [delimiter];
      assert head + (last + [c]) == (head + last) + [c];
    }
  }

  /** Splitting loses nothing: the pieces joined by the delimiter are the value. */
  lemma {:induction false} SegmentsRejoin(v: string, delimiter: char)
    ensures Joined(Segments(v, delimiter), delimiter) == v
  {
    if v != [] {
      var rest, c := Segments(v[..|v| - 1], delimiter), v[|v| - 1];
      SegmentsRejoin(v[..|v| - 1], delimiter);
      JoinedPush(rest, delimiter);
      JoinedExtend(rest, c, delimiter);
      assert v[..|v| - 1] + [c] == v;
    }
  }

  lemma SegmentGrows(part: string, c: char, delimiter: char)
    ensures ScanOf(part + [c]) == ScanStep(ScanOf(part), c)
    ensures Segments(part, delimiter) == [part] && !Cuts(ScanOf(part), c, delimiter) ==>
              Segments(part + [c], delimiter) == [part + [c]]
  {
    assert (part + [c])[..|part|] == part;
  }

  lemma ScanGrows(v: string)
    requires v != []
    ensures ScanOf(v) == ScanStep(ScanOf(v[..|v| - 1]), v[|v| - 1])
  {
  }

  /** Splitting misses nothing: no piece can be split again. */
  lemma {:induction false} SegmentsAreWhole(v: string, delimiter: char)
    ensures var r := Segments(v, delimiter);
      (forall k :: 0 <= k < |r| ==> Segments(r[k], delimiter) == [r[k]]) && ScanOf(r[|r| - 1]) == ScanOf(v)
  {
    if v != [] {
      var rest, c := Segments(v[..|v| - 1], delimiter), v[|v| - 1];
      SegmentsAreWhole(v[..|v| - 1], delimiter);
      SegmentGrows(rest[|rest| - 1], c, delimiter);
      ScanGrows(v);
      var r := Segments(v, delimiter);
      hide ScanOf, ScanStep;
      forall k | 0 <= k < |r|
        ensures Segments(r[k], delimiter) == [r[k]]
      {
        assert k < |rest| - 1 ==> r[k] == rest[k];
      }
    }
  }

  function Kept(parts: seq<string>): seq<string> {
    if parts == [] then []
    else
      var p := Strip(parts[|parts| - 1]);
      if p != [] then Kept(parts[..|parts| - 1]) + [p] else Kept(parts[..|parts| - 1])
  }

  method SplitUnquoted(value: string, delimiter: char) returns (parts: seq<string>)
    ensures parts == Kept(Segments(value, delimiter))
  {
    parts := [];
    var current: string, quote: Option<char>, escaped := [], None, false;
    ghost var segments: seq<string> := [[]];
    for i := 0 to |value|
      invariant segments == Segments(value[..i], delimiter) && Scan(quote, escaped) == ScanOf(value[..i])
      invariant current == segments[|segments| - 1] && parts == Kept(segments[..|segments| - 1])
    {
      var ch := value[i];
      assert value[..i + 1][..i] == value[..i];
      ghost var before := segments;
      if Cuts(Scan(quote, escaped), ch, delimiter) {
        var part := Strip(current);
        parts := if part != [] then parts + [part] else parts;
        current := [];
        segments := before + [[]];
        assert segments[..|segments| - 1] == before;
      } else {
        var scan := ScanStep(Scan(quote, escaped), ch);
        quote, escaped, current := scan.quote, scan.escaped, current + [ch];
        segments := before[..|before| - 1] + [current];
        assert segments[..|segments| - 1] == before[..|before| - 1];
      }
    }
    assert value[..|value|] == value;
    parts := if Strip(current) != [] then parts + [Strip(current)] else parts;
  }

  /** str.split on one character. */
  function SplitOn(v: string, c: char): (r: seq<string>)
    ensures r != []
  {
    if v == [] then [[]]
    else
      var rest := SplitOn(v[..|v| - 1], c);
      if v[|v| - 1] == c then rest + [[]] else rest[..|rest| - 1] + [rest[|rest| - 1] + [v[|v| - 1]]]
  }

  /** What the pieces of a text at a delimiter are: joined they are the text, and none holds the delimiter. */
  ghost predicate IsSplit(v: string, c: char, parts: seq<string>) {
    parts != [] && Joined(parts, c) == v && forall i :: 0 <= i < |parts| ==> c !in parts[i]
  }

  lemma {:induction false} SplitOnSplits(v: string, c: char)
    ensures IsSplit(v, c, SplitOn(v, c))
  {
    if v != [] {
      var rest, x := SplitOn(v[..|v| - 1], c), v[|v| - 1];
      SplitOnSplits(v[..|v| - 1], c);
      assert v == v[..|v| - 1] + [x];
      if x == c {
        JoinedPush(rest, c);
      } else {
        JoinedExtend(rest, x, c);
      }
    }
  }

  /** There is one way to split a text. */
  lemma {:induction false} SplitOnIff(v: string, c: char, parts: seq<string>)
    ensures IsSplit(v, c, parts) <==> parts == SplitOn(v, c)
    decreases |v|
  {
    SplitOnSplits(v, c);
    if IsSplit(v, c, parts) {
      var front, last := parts[..|parts| - 1], parts[|parts| - 1];
      assert parts == front + [last];
      if last != [] {
        var x, cut := last[|last| - 1], last[..|last| - 1];
        assert last == cut + [x];
        ShorterSplit(v, c, front, cut, x);
        SplitOnIff(v[..|v| - 1], c, front + [cut]);
      } else if front != [] {
        JoinedPush(front, c);
        hide Joined;
        SplitOnIff(v[..|v| - 1], c, front);
      }
    }
  }

  /** Without its last character the text has the same pieces, but for that character. */
  lemma ShorterSplit(v: string, c: char, front: seq<string>, cut: string, x: char)
    requires IsSplit(v, c, front + [cut + [x]])
    ensures v != [] && v[|v| - 1] == x && x != c && IsSplit(v[..|v| - 1], c, front + [cut])
  {
    PieceGrows(front, cut, x, c);
    NoneHolds(front, cut, x, c);
    hide Joined;
  }

  lemma PieceGrows(front: seq<string>, cut: string, x: char, c: char)
    ensures Joined(front + [cut + [x]], c) == Joined(front + [cut], c) + [x]
  {
    JoinedExtend(front + [cut], x, c);
    hide Joined;
    assert (front + [cut])[..|front|] + [(front + [cut])[|front|] + [x]] == front + [cut + [x]];
  }

  lemma NoneHolds(front: seq<string>, cut: string, x: char, c: char)
    requires var parts := front + [cut + [x]]; forall i :: 0 <= i < |parts| ==> c !in parts[i]
    ensures x != c && var parts := front + [cut]; forall i :: 0 <= i < |parts| ==> c !in parts[i]
  {
    var parts := front + [cut + [x]];
    assert c !in parts[|front|] && x in cut + [x];
    forall i | 0 <= i <= |front|
      ensures c !in (front + [cut])[i]
    {
      assert c !in parts[i];
      assert i < |front| ==> parts[i] == front[i];
    }
  }

  /** Kept are the pieces that are not blank, trimmed. */
  lemma {:induction false} KeptIff(parts: seq<string>, t: string)
    ensures t in Kept(parts) <==> t != [] && exists i :: 0 <= i < |parts| && t == Strip(parts[i])
  {
    if parts != [] {
      var front := parts[..|parts| - 1];
      KeptIff(front, t);
      if i :| 0 <= i < |front| && t == Strip(front[i]) {
        assert t == Strip(parts[i]);
      }
    }
  }

  /** How quotations and escapes are read: from a neutral place, and back to it. */
  lemma ScanIs(v: string, q: char, body: string, c: char)
    requires q in {'"', '\''} && ScanOf(v) == NEUTRAL && forall i :: 0 <= i < |body| ==> body[i] != q && body[i] != '\\'
    ensures c != '\\' && c != '"' && c != '\'' ==> ScanOf(v + [c]) == NEUTRAL
    ensures ScanOf(v + [q] + body) == Scan(Some(q), false) && ScanOf(v + [q] + body + [q]) == NEUTRAL
    ensures ScanOf(v + ['\\']) == Scan(None, true) && ScanOf(v + ['\\'] + [c]) == NEUTRAL
    ensures ScanOf(v + [q] + body + ['\\'] + [c]) == Scan(Some(q), false)
  {
    ScanNext(v, c);
    ScanNext(v, q);
    ScanNext(v, '\\');
    ScanNext(v + ['\\'], c);
    ScanQuoted(v + [q], q, body);
    ScanNext(v + [q] + body, q);
    ScanNext(v + [q] + body, '\\');
    ScanNext(v + [q] + body + ['\\'], c);
  }

  lemma ScanNext(v: string, c: char)
    ensures ScanOf(v + [c]) == ScanStep(ScanOf(v), c)
  {
    assert (v + [c])[..|v|] == v;
  }

  lemma {:induction false} ScanQuoted(v: string, q: char, body: string)
    requires ScanOf(v) == Scan(Some(q), false) && forall i :: 0 <= i < |body| ==> body[i] != q && body[i] != '\\'
    ensures ScanOf(v + body) == Scan(Some(q), false)
  {
    if body == [] {
      assert v + body == v;
    } else {
      var front := body[..|body| - 1];
      ScanQuoted(v, q, front);
      ScanNext(v + front, body[|body| - 1]);
      assert v + body == v + front + [body[|body| - 1]];
    }
  }

  /** Every delimiter at a neutral place separates two pieces, and none elsewhere does. */
  lemma {:induction false} SegmentsCut(v: string, delimiter: char)
    requires delimiter !in {'\\', '"', '\''}
    ensures var r := Segments(v, delimiter);
      && (forall k :: 0 <= k < |r| ==> CutsNowhere(r[k], delimiter))
      && (forall k :: 0 <= k < |r| - 1 ==> ScanOf(r[k]) == NEUTRAL)
  {
    if v != [] {
      var rest, c := Segments(v[..|v| - 1], delimiter), v[|v| - 1];
      SegmentsCut(v[..|v| - 1], delimiter);
      SegmentsAreWhole(v[..|v| - 1], delimiter);
      hide CutsNowhere, ScanOf;
      OneMoreUncut(rest[|rest| - 1], c, delimiter);
    }
  }

  /** No delimiter of the piece stands at a neutral place. */
  ghost predicate CutsNowhere(part: string, delimiter: char) {
    forall i :: 0 <= i < |part| && part[i] == delimiter ==> ScanOf(part[..i]) != NEUTRAL
  }

  lemma OneMoreUncut(part: string, c: char, delimiter: char)
    ensures CutsNowhere(part, delimiter) && (c == delimiter ==> ScanOf(part) != NEUTRAL) ==>
              CutsNowhere(part + [c], delimiter)
    ensures CutsNowhere([], delimiter)
  {
    forall i | 0 <= i <= |part|
      ensures (part + [c])[..i] == part[..i]
    {
    }
    assert part[..|part|] == part;
  }

  /** The values of a token that are alternatives: unquoted, with a bar, on the fields that allow it. */
  function OrValues(ft: FieldToken): seq<string> {
    if ft.field in {"model", "sampler", "seed", "path"} && ft.operator == "=" && ft.quoteChar == "" && '|' in ft.value
    then Kept(Segments(ft.value, '|'))
    else []
  }

  predicate IsTermList(ft: FieldToken) {
    ft.quoteChar != "" && ',' in ft.value
  }

  function Alternatives(ft: FieldToken): seq<string> {
    if OrValues(ft) != [] then OrValues(ft) else [ft.value]
  }

  /** The values of a text or model filter: the terms of a quoted list, or the alternatives. */
  function Values(ft: FieldToken): seq<string> {
    if IsTermList(ft) then Kept(SplitOn(ft.value, ',')) else Alternatives(ft)
  }

  lemma {:induction false} NoTermIff(v: string)
    ensures Kept(SplitOn(v, ',')) == [] <==> forall k :: 0 <= k < |v| ==> v[k] == ',' || IsSpace(v[k])
  {
    NoTermInPieces(v);
    KeptNothing(SplitOn(v, ','));
  }

  ghost predicate AllBlank(parts: seq<string>) {
    forall i, k :: 0 <= i < |parts| && 0 <= k < |parts[i]| ==> IsSpace(parts[i][k])
  }

  lemma {:induction false} KeptNothing(parts: seq<string>)
    ensures Kept(parts) == [] <==> AllBlank(parts)
  {
    if parts != [] {
      KeptNothing(parts[..|parts| - 1]);
      StripEmptyIff(parts[|parts| - 1]);
    }
  }

  lemma {:induction false} NoTermInPieces(v: string)
    ensures AllBlank(SplitOn(v, ',')) <==> forall k :: 0 <= k < |v| ==> v[k] == ',' || IsSpace(v[k])
  {
    if v != [] {
      var rest, c := SplitOn(v[..|v| - 1], ','), v[|v| - 1];
      NoTermInPieces(v[..|v| - 1]);
      if c == ',' {
        BlankPush(rest);
      } else {
        BlankGrows(rest, c);
      }
    }
  }

  lemma BlankPush(parts: seq<string>)
    ensures AllBlank(parts + [[]]) <==> AllBlank(parts)
  {
    if AllBlank(parts + [[]]) {
      forall i, k | 0 <= i < |parts| && 0 <= k < |parts[i]|
        ensures IsSpace(parts[i][k])
      {
        assert parts[i][k] == (parts + [[]])[i][k];
      }
    }
  }

  lemma BlankGrows(parts: seq<string>, c: char)
    requires parts != []
    ensures AllBlank(parts[..|parts| - 1] + [parts[|parts| - 1] + [c]]) <==> AllBlank(parts) && IsSpace(c)
  {
    var last := parts[|parts| - 1];
    var longer := parts[..|parts| - 1] + [last + [c]];
    if AllBlank(longer) {
      forall i, k | 0 <= i < |parts| && 0 <= k < |parts[i]|
        ensures IsSpace(parts[i][k])
      {
        assert parts[i][k] == longer[i][k];
      }
      assert longer[|parts| - 1][|last|] == c;
    }
  }

  // ---------------------------------------------------------------- numbers, sizes, dates, words

  const INT_MAX := 0x7FFF_FFFF_FFFF_FFFF
  const MAX_DIGITS := 4300

  predicate Fits(n: int) {
    -INT_MAX - 1 <= n <= INT_MAX
  }

  function AnyNumber(e: Engine, v: string): Option<Number> {
    match e.asInt(v)
    case Some(n) => if Fits(n) then Some(Whole(n)) else None
    case None =>
      match e.asFloat(v)
      case Some(x) => Some(Fraction(x))
      case None => None
  }

  predicate IsIntegerField(field: string) {
    field in {"steps", "width", "height", "clip_skip", "hires_steps", "ensd"}
  }

  function FieldNumber(e: Engine, field: string, v: string): Option<Number> {
    var number := AnyNumber(e, v);
    if number.Some? && number.value.Fraction? && IsIntegerField(field) then
      var x := number.value.fraction;
      if x == x.Floor as real && Fits(x.Floor) then Some(Whole(x.Floor)) else None
    else number
  }

  /** An integer field takes exactly the whole numbers of 64 bits, however they are spelled, other fields any number. */
  lemma FieldNumberIff(e: Engine, field: string, v: string)
    ensures var n, any := FieldNumber(e, field, v), AnyNumber(e, v);
      && (n.Some? <==> any.Some? && (IsIntegerField(field) ==> exists k :: Fits(k) && any.value.Size() == k as real))
      && (n.Some? ==> n.value.Size() == any.value.Size() && (IsIntegerField(field) ==> n.value.Whole?))
  {
    var any := AnyNumber(e, v);
    if any.Some? && any.value.Fraction? {
      var x := any.value.fraction;
      if k :| Fits(k) && x == k as real {
        assert x.Floor == k;
      }
    }
  }

  predicate IsDigit(e: Engine, c: char) {
    e.digit(c).Some?
  }

  predicate AllDigits(e: Engine, s: string) {
    forall k :: 0 <= k < |s| ==> IsDigit(e, s[k])
  }

  predicate AllSpaces(s: string) {
    forall k :: 0 <= k < |s| ==> IsSpace(s[k])
  }

  function DigitRun(e: Engine, s: string): (n: nat)
    ensures n <= |s|
  {
    if s != [] && IsDigit(e, s[0]) then 1 + DigitRun(e, s[1..]) else 0
  }

  function Decimal(e: Engine, s: string): nat {
    if s == [] then 0
    else 10 * Decimal(e, s[..|s| - 1]) + e.digit(s[|s| - 1]).GetOr(0)
  }

  lemma DecimalGrows(e: Engine, s: string, c: char)
    requires IsDigit(e, c)
    ensures Decimal(e, "") == 0 && Decimal(e, s + [c]) == 10 * Decimal(e, s) + e.digit(c).value
  {
    assert (s + [c])[..|s|] == s;
  }

  /** WIDTHxHEIGHT, with white space around the x; None for anything else or more digits than int() takes. */
  function SizeOf(e: Engine, v: string): Option<(nat, nat)> {
    var n := DigitRun(e, v);
    var tail := LStrip(v[n..]);
    if n == 0 || tail == [] || tail[0] !in {'x', 'X'} then None
    else
      var height := LStrip(tail[1..]);
      if height == [] || DigitRun(e, height) < |height| || n > MAX_DIGITS || |height| > MAX_DIGITS then None
      else Some((Decimal(e, v[..n]), Decimal(e, height)))
  }

  /** No digit is white space or an x. */
  ghost predicate DigitsApart(e: Engine) {
    forall c :: IsDigit(e, c) ==> !IsSpace(c) && c != 'x' && c != 'X'
  }

  lemma {:induction false} DigitRunStops(e: Engine, digits: string, rest: string)
    requires AllDigits(e, digits) && (rest != [] ==> !IsDigit(e, rest[0]))
    ensures DigitRun(e, digits + rest) == |digits|
  {
    if digits == [] {
      assert digits + rest == rest;
    } else {
      assert (digits + rest)[1..] == digits[1..] + rest;
      DigitRunStops(e, digits[1..], rest);
    }
  }

  lemma {:induction false} DigitRunIsDigits(e: Engine, s: string)
    ensures AllDigits(e, s[..DigitRun(e, s)])
  {
    if s != [] && IsDigit(e, s[0]) {
      DigitRunIsDigits(e, s[1..]);
      var n := DigitRun(e, s);
      forall k | 0 <= k < n
        ensures IsDigit(e, s[k])
      {
        assert k > 0 ==> s[k] == s[1..][..n - 1][k - 1];
      }
    }
  }

  lemma {:induction false} SpacesStrip(spaces: string, rest: string)
    requires AllSpaces(spaces) && rest != [] && !IsSpace(rest[0])
    ensures LStrip(spaces + rest) == rest
  {
    if spaces == [] {
      assert spaces + rest == rest && rest[0..] == rest;
    } else {
      assert (spaces + rest)[1..] == spaces[1..] + rest;
      SpacesStrip(spaces[1..], rest);
      assert (spaces + rest)[Skip(spaces + rest)..] == (spaces[1..] + rest)[Skip(spaces[1..] + rest)..];
    }
  }

  /** Every spelling of two decimal numbers with an x between them reads as these two numbers. */
  lemma SizeReads(e: Engine, width: string, before: string, x: char, behind: string, height: string)
    requires DigitsApart(e) && AllDigits(e, width) && AllDigits(e, height) && AllSpaces(before) && AllSpaces(behind)
    requires 1 <= |width| <= MAX_DIGITS && 1 <= |height| <= MAX_DIGITS && x in {'x', 'X'}
    ensures SizeOf(e, width + (before + ([x] + (behind + height)))) == Some((Decimal(e, width), Decimal(e, height)))
  {
    hide Decimal, LStrip, DigitRun;
    var tail := [x] + (behind + height);
    var rest := before + tail;
    var v := width + rest;
    assert IsDigit(e, height[0]);
    assert rest[0] == if before == [] then x else before[0];
    DigitRunStops(e, width, rest);
    assert v[..|width|] == width && v[|width|..] == rest;
    SpacesStrip(before, tail);
    assert tail[1..] == behind + height;
    SpacesStrip(behind, height);
    DigitRunStops(e, height, []);
    assert height + [] == height;
    SizeIs(e, v, width, tail, height);
  }

  /** The reading of a size whose parts are known. */
  lemma SizeIs(e: Engine, v: string, width: string, tail: string, height: string)
    requires DigitRun(e, v) == |width| && width <= v && LStrip(v[|width|..]) == tail && tail != []
    requires tail[0] in {'x', 'X'} && LStrip(tail[1..]) == height && DigitRun(e, height) == |height|
    requires 1 <= |width| <= MAX_DIGITS && 1 <= |height| <= MAX_DIGITS
    ensures SizeOf(e, v) == Some((Decimal(e, width), Decimal(e, height)))
  {
    hide Decimal, LStrip, DigitRun;
    assert v[..|width|] == width;
  }

  /** And only these do: a size that is read has that spelling. */
  lemma SizeIsSpelled(e: Engine, v: string)
    returns (width: string, before: string, x: char, behind: string, height: string)
    requires SizeOf(e, v).Some?
    ensures v == width + (before + ([x] + (behind + height)))
    ensures AllDigits(e, width) && AllDigits(e, height) && AllSpaces(before) && AllSpaces(behind)
    ensures 1 <= |width| <= MAX_DIGITS && 1 <= |height| <= MAX_DIGITS && x in {'x', 'X'}
  {
    hide Decimal, Skip, LStrip, DigitRun, AllDigits, AllSpaces;
    var n := DigitRun(e, v);
    var s := v[n..];
    var tail := LStrip(s);
    DigitRunIsDigits(e, v);
    before := LeadingSpaces(s);
    width, x := v[..n], tail[0];
    var u := tail[1..];
    behind := LeadingSpaces(u);
    height := LStrip(u);
    DigitRunIsDigits(e, height);
    assert height[..|height|] == height;
    assert v == width + s && tail == [x] + u;
  }

  lemma LeadingSpaces(s: string) returns (spaces: string)
    ensures s == spaces + LStrip(s) && AllSpaces(spaces)
  {
    SkipStops(s);
    spaces := s[..Skip(s)];
  }

  predicate IsDate(e: Engine, s: string) {
    && |s| == 10 && s[4] == '-' && s[7] == '-'
    && forall k :: k in {0, 1, 2, 3, 5, 6, 8, 9} ==> IsDigit(e, s[k])
  }

  /** A date is four, two and two digits between dashes. */
  lemma DateIs(e: Engine, s: string, year: string, month: string, day: string)
    requires |year| == 4 && |month| == 2 && |day| == 2
    ensures IsDate(e, year + "-" + month + "-" + day) <==>
              AllDigits(e, year) && AllDigits(e, month) && AllDigits(e, day)
    ensures IsDate(e, s) ==> |s| == 10 && s == s[..4] + "-" + s[5..7] + "-" + s[8..]
  {
    var t := year + "-" + month + "-" + day;
    assert forall k :: 0 <= k < 4 ==> t[k] == year[k];
    assert forall k :: 0 <= k < 2 ==> t[k + 5] == month[k] && t[k + 8] == day[k];
  }

  predicate InWord(e: Engine, c: char) {
    e.word(c) || c == '.' || c == '-'
  }

  /** The maximal runs of word characters, dots and hyphens. */
  function Words(e: Engine, s: string): (r: seq<string>)
    ensures s != [] && InWord(e, s[|s| - 1]) ==> r != []
  {
    if s == [] then []
    else
      var front, c := s[..|s| - 1], s[|s| - 1];
      var rest := Words(e, front);
      if !InWord(e, c) then rest
      else if front != [] && InWord(e, front[|front| - 1]) then rest[..|rest| - 1] + [rest[|rest| - 1] + [c]]
      else rest + [[c]]
  }

  predicate IsWord(e: Engine, w: string) {
    w != [] && forall k :: 0 <= k < |w| ==> InWord(e, w[k])
  }

  lemma {:induction false} WordsAreWords(e: Engine, s: string)
    ensures forall i :: 0 <= i < |Words(e, s)| ==> IsWord(e, Words(e, s)[i])
    ensures Words(e, s) == [] <==> forall k :: 0 <= k < |s| ==> !InWord(e, s[k])
  {
    if s != [] {
      WordsAreWords(e, s[..|s| - 1]);
    }
  }

  /** The word characters of a text. */
  function WordChars(e: Engine, s: string): string {
    if s == [] then []
    else
      var c := s[|s| - 1];
      WordChars(e, s[..|s| - 1]) + if e.word(c) || c == '.' || c == '-' then [c] else []
  }

  function Concatenated(words: seq<string>): string {
    if words == [] then [] else Concatenated(words[..|words| - 1]) + words[|words| - 1]
  }

  /** How many runs of word characters start in the text. */
  function RunStarts(e: Engine, s: string): nat {
    if s == [] then 0
    else
      var n := |s| - 1;
      RunStarts(e, s[..n]) + if InWord(e, s[n]) && (n == 0 || !InWord(e, s[n - 1])) then 1 else 0
  }

  /** The words are the runs, each once and whole, in their order. */
  lemma WordsCover(e: Engine, s: string)
    ensures Concatenated(Words(e, s)) == WordChars(e, s) && |Words(e, s)| == RunStarts(e, s)
  {
    WordsHoldAll(e, s);
    WordsAreCounted(e, s);
  }

  /** What one more character does to the words. */
  lemma WordsGrow(e: Engine, s: string)
    requires s != []
    ensures var (rest, c) := (Words(e, s[..|s| - 1]), s[|s| - 1]);
      && (!InWord(e, c) ==> Words(e, s) == rest)
      && (InWord(e, c) && |s| > 1 && InWord(e, s[|s| - 2]) ==>
            rest != [] && Words(e, s) == rest[..|rest| - 1] + [rest[|rest| - 1] + [c]])
      && (InWord(e, c) && !(|s| > 1 && InWord(e, s[|s| - 2])) ==> Words(e, s) == rest + [[c]])
  {
    assert |s| > 1 ==> s[..|s| - 1][|s| - 2] == s[|s| - 2];
  }

  lemma {:induction false} WordsHoldAll(e: Engine, s: string)
    ensures Concatenated(Words(e, s)) == WordChars(e, s)
  {
    if s != [] {
      WordsHoldAll(e, s[..|s| - 1]);
      WordsGrow(e, s);
      var rest, c := Words(e, s[..|s| - 1]), s[|s| - 1];
      OneMoreWord(rest, [c]);
      hide Words, Concatenated;
      if InWord(e, c) && |s| > 1 && InWord(e, s[|s| - 2]) {
        LongerWord(rest, c);
      }
    }
  }

  lemma {:induction false} WordsAreCounted(e: Engine, s: string)
    ensures |Words(e, s)| == RunStarts(e, s)
  {
    if s != [] {
      WordsAreCounted(e, s[..|s| - 1]);
      WordsGrow(e, s);
      hide Words, InWord;
    }
  }

  lemma LongerWord(words: seq<string>, c: char)
    requires words != []
    ensures Concatenated(words[..|words| - 1] + [words[|words| - 1] + [c]]) == Concatenated(words) + [c]
  {
    var front, last := words[..|words| - 1], words[|words| - 1];
    OneMoreWord(front, last);
    OneMoreWord(front, last + [c]);
    Regroup(Concatenated(front), last, [c]);
    hide Concatenated;
    assert words == front + [last];
  }

  lemma Regroup(a: string, b: string, c: string)
    ensures a + (b + c) == a + b + c
  {
  }

  lemma OneMoreWord(words: seq<string>, w: string)
    ensures Concatenated(words + [w]) == Concatenated(words) + w
  {
    assert (words + [w])[..|words|] == words;
  }

  /** A query of words wants all of them. */
  lemma MatchQueryIs(e: Engine, text: string, words: seq<string>, w: string)
    ensures Words(e, text) == [] ==> MatchQuery(e, text) == "\"" + Doubled(text) + "\""
    ensures Words(e, text) == [w] ==> MatchQuery(e, text) == "\"" + Doubled(w) + "\""
    ensures words != [] && Words(e, text) == words + [w] ==>
              MatchQuery(e, text) == AndOf(words) + " AND " + ("\"" + Doubled(w) + "\"")
  {
    hide Words, Doubled;
    assert (words + [w])[..|words|] == words;
  }

  function AndOf(words: seq<string>): string {
    if words == [] then ""
    else if |words| == 1 then Quoted(words[0])
    else AndOf(words[..|words| - 1]) + " AND " + Quoted(words[|words| - 1])
  }

  /** The full-text query for free text: all of its words, or, without any word, the text itself as a phrase. */
  function MatchQuery(e: Engine, text: string): string {
    if Words(e, text) == [] then Quoted(text) else AndOf(Words(e, text))
  }

  // ---------------------------------------------------------------- what a filter asks for

  /** One value of a filter. */
  datatype Want =
    | TextWant(column: Column, narrow: bool, v: string)
    | ModelWant(v: string)
    | PatternWant(column: Column, v: string)
    | LikeWant(column: Column, v: string)
    | EqualWant(column: Column, v: string)
    | NumberWant(measure: NumberColumn, operator: string, number: Number)
    | TextOrderWant(column: Column, operator: string, number: Number)
    | DayWant(column: Column, operator: string, v: string)
    | SizeWant(width: nat, height: nat)
    | NameOrHashWant(v: string)
    | ResourceWant(lora: bool, v: string)
    | JsonWant(key: string, v: string)
    | FullTextWant(v: string)
    | RejectedWant(v: string)

  ghost predicate ResourceMeans(r: ResourceRow, row: MetadataRow, lora: bool, v: string) {
    && FilePath in row.text && r.path == row.text[FilePath]
    && if lora then r.kind == "lora" && (Has(r.name, v) || Has(r.resourceHash, v) || Has(r.hash, v))
       else Has(r.resourceHash, v) || Has(r.hash, v)
  }

  ghost predicate Has(s: Option<string>, v: string) {
    s.Some? && Occurs(v, s.value)
  }

  ghost predicate Wants(e: Engine, db: Database, id: int, w: Want)
    requires id in db.rows
  {
    var row := db.rows[id];
    match w
    case TextWant(column, _, v) => TextMeans(row, column, v)
    case ModelWant(v) => ModelMeans(e, db, row, v)
    case PatternWant(column, v) => PatternMeans(row, column, v)
    case LikeWant(column, v) =>
      column in row.text
      && if Like.EndsWithStar(v) then OccursAt(v[..|v| - 1], row.text[column], 0)
         else if '*' !in v then SameLetters(v, row.text[column])
         else Like.Glob(v, row.text[column])
    case EqualWant(column, v) => column in row.text && row.text[column] == v
    case NumberWant(column, operator, number) =>
      column in row.numbers && NumbersCompare(operator, row.numbers[column], number.Size())
    case TextOrderWant(column, operator, number) =>
      column in row.text && TextsCompare(operator, row.text[column], e.render(number))
    case DayWant(column, operator, day) => column in row.text && TextsCompare(operator, Day(row.text[column]), day)
    case SizeWant(width, height) =>
      && Width in row.numbers && row.numbers[Width] == width as real
      && Height in row.numbers && row.numbers[Height] == height as real
    case NameOrHashWant(v) =>
      if '=' in v
      then (Model in row.text && row.text[Model] == v) || (ModelHash in row.text && row.text[ModelHash] == v)
      else TextMeans(row, Model, v) || TextMeans(row, ModelHash, v)
    case ResourceWant(lora, v) => exists r :: r in db.resources && ResourceMeans(r, row, lora, v)
    case JsonWant(key, v) =>
      var found := JsonValue(e, row, "$." + e.dumps(key));
      if v == "" then found.Some? else found == Some(TextValue(v))
    case FullTextWant(query) => e.fullText(query, row)
    case RejectedWant(_) => false
  }

  /** What a filter comes to: an error, one thing, or any or all of several. */
  datatype Plan = Invalid | One(want: Want) | Many(all: bool, wants: seq<Want>)

  function TextColumn(field: string): Option<Column> {
    match field
    case "prompt" => Some(Prompt)
    case "negative" => Some(NegativePrompt)
    case "name" => Some(Name)
    case "tool" => Some(Tool)
    case "sampler" => Some(Sampler)
    case "scheduler" => Some(Scheduler)
    case "vae" => Some(Vae)
    case "date" => Some(Date)
    case "generation_time" => Some(GenerationTime)
    case _ => None
  }

  function ColumnOf(field: string): Column {
    match field
    case "seed" => Seed
    case "aspect_ratio" => AspectRatio
    case "model_hash" => ModelHash
    case _ => TextColumn(field).GetOr(RawText)
  }

  function NumberColumnOf(field: string): Option<NumberColumn> {
    match field
    case "width" => Some(Width)
    case "height" => Some(Height)
    case "steps" => Some(Steps)
    case "cfg_scale" => Some(CfgScale)
    case "clip_skip" => Some(ClipSkip)
    case "hires_upscale" => Some(HiresUpscale)
    case "hires_steps" => Some(HiresSteps)
    case "denoising_strength" => Some(Denoising)
    case "ensd" => Some(Ensd)
    case "aesthetic_score" => Some(AestheticScore)
    case _ => None
  }

  predicate IsComparison(operator: string) {
    operator in {">", ">=", "<", "<="}
  }

  predicate IsNarrowed(field: string) {
    field in {"prompt", "negative", "name", "sampler"}
  }

  function TextWants(column: Column, narrow: bool, values: seq<string>): seq<Want> {
    seq(|values|, i requires 0 <= i < |values| => TextWant(column, narrow, values[i]))
  }

  function ModelWants(values: seq<string>): seq<Want> {
    seq(|values|, i requires 0 <= i < |values| => ModelWant(values[i]))
  }

  function PathWants(values: seq<string>): seq<Want> {
    seq(|values|, i requires 0 <= i < |values| => PatternWant(FilePath, values[i]))
  }

  function EqualWants(column: Column, values: seq<string>): seq<Want> {
    seq(|values|, i requires 0 <= i < |values| => EqualWant(column, values[i]))
  }

  /** The filters without a handler of their own. */
  function StandardPlan(e: Engine, ft: FieldToken): Plan {
    var number := FieldNumber(e, ft.field, ft.value);
    if ft.field in {"date", "generation_time"} && IsComparison(ft.operator) then
      if IsDate(e, Strip(ft.value)) then One(DayWant(ColumnOf(ft.field), ft.operator, Strip(ft.value))) else Invalid
    else if IsComparison(ft.operator) then
      if number.None? then Invalid
      else if NumberColumnOf(ft.field).Some?
      then One(NumberWant(NumberColumnOf(ft.field).value, ft.operator, number.value))
      else One(TextOrderWant(ColumnOf(ft.field), ft.operator, number.value))
    else if TextColumn(ft.field).Some? then
      Many(IsTermList(ft), TextWants(TextColumn(ft.field).value, IsNarrowed(ft.field), Values(ft)))
    else if NumberColumnOf(ft.field).Some? then
      if number.None? then Invalid else One(NumberWant(NumberColumnOf(ft.field).value, "=", number.value))
    else if Like.Pattern(ft.value) != ft.value || '*' in ft.value then One(LikeWant(ColumnOf(ft.field), ft.value))
    else Many(false, EqualWants(ColumnOf(ft.field), Alternatives(ft)))
  }

  function PlanOf(e: Engine, ft: FieldToken): Plan {
    match ft.field
    case "raw" => One(PatternWant(RawText, ft.value))
    case "param" | "advanced" =>
      if ft.key.GetOr("") != "" then One(JsonWant(ft.key.value, ft.value)) else One(RejectedWant(ft.value))
    case "model_or_hash" => One(NameOrHashWant(ft.value))
    case "model" => Many(IsTermList(ft), ModelWants(Values(ft)))
    case "size" =>
      var size := SizeOf(e, ft.value);
      if size.Some? && size.value.0 <= INT_MAX && size.value.1 <= INT_MAX
      then One(SizeWant(size.value.0, size.value.1))
      else Invalid
    case "path" => Many(false, PathWants(Alternatives(ft)))
    case "resource_hash" => One(ResourceWant(false, ft.value))
    case "lora" => One(ResourceWant(true, ft.value))
    case _ => StandardPlan(e, ft)
  }

  // ---------------------------------------------------------------- what each field asks of a row

  predicate Compares(ft: FieldToken) {
    ft.operator == ">" || ft.operator == ">=" || ft.operator == "<" || ft.operator == "<="
  }

  ghost predicate Contains(row: MetadataRow, column: Column, v: string) {
    column in row.text && Occurs(v, row.text[column])
  }

  /** The value, or, on a field that takes them, its unquoted alternatives between bars. */
  function Choices(ft: FieldToken, bars: bool): seq<string> {
    if bars && ft.operator == "=" && ft.quoteChar == "" && '|' in ft.value && Kept(Segments(ft.value, '|')) != []
    then Kept(Segments(ft.value, '|'))
    else [ft.value]
  }

  /** A quoted list wants all its terms, and anything else one of its alternatives, in the column. */
  ghost predicate AsksList(row: MetadataRow, column: Column, ft: FieldToken, bars: bool) {
    if ft.quoteChar != "" && ',' in ft.value
    then forall t :: t in Kept(SplitOn(ft.value, ',')) ==> Contains(row, column, t)
    else exists t :: t in Choices(ft, bars) && Contains(row, column, t)
  }

  /** A model filter also finds the images whose hash is known for the name. */
  ghost predicate NamesModel(e: Engine, db: Database, row: MetadataRow, v: string) {
    || Contains(row, Model, v)
    || ('*' !in v && ModelHash in row.text && Lower(row.text[ModelHash]) != ""
        && (e.normalize(v), Lower(row.text[ModelHash])) in db.identities)
  }

  ghost predicate AsksModel(e: Engine, db: Database, row: MetadataRow, ft: FieldToken) {
    if ft.quoteChar != "" && ',' in ft.value
    then forall t :: t in Kept(SplitOn(ft.value, ',')) ==> NamesModel(e, db, row, t)
    else exists t :: t in Choices(ft, true) && NamesModel(e, db, row, t)
  }

  predicate InTextOrder(operator: string, a: string, b: string) {
    && (operator == "<" ==> StringLess(a, b)) && (operator == "<=" ==> !StringLess(b, a))
    && (operator == ">" ==> StringLess(b, a)) && (operator == ">=" ==> !StringLess(a, b))
  }

  /** A text column is compared with the text of the number. */
  predicate AsksOrder(e: Engine, row: MetadataRow, column: Column, ft: FieldToken) {
    var number := FieldNumber(e, ft.field, ft.value);
    column in row.text && number.Some? && InTextOrder(ft.operator, row.text[column], e.render(number.value))
  }

  ghost predicate AsksText(e: Engine, row: MetadataRow, column: Column, ft: FieldToken, bars: bool) {
    if Compares(ft) then AsksOrder(e, row, column, ft) else AsksList(row, column, ft, bars)
  }

  /** A comparison of dates looks at the first ten characters. */
  ghost predicate AsksDate(row: MetadataRow, column: Column, ft: FieldToken) {
    if Compares(ft) then
      && column in row.text
      && var text := row.text[column];
      InTextOrder(ft.operator, if |text| < 10 then text else text[..10], Strip(ft.value))
    else AsksList(row, column, ft, false)
  }

  predicate AsksNumber(e: Engine, row: MetadataRow, column: NumberColumn, ft: FieldToken) {
    var number := FieldNumber(e, ft.field, ft.value);
    && column in row.numbers && number.Some?
    && var (x, y) := (row.numbers[column], number.value.Size());
    && (ft.operator == "<" ==> x < y) && (ft.operator == "<=" ==> x <= y)
    && (ft.operator == ">" ==> x > y) && (ft.operator == ">=" ==> x >= y)
    && (!Compares(ft) ==> x == y)
  }

  predicate HasSpecial(v: string) {
    '*' in v || '\\' in v || '%' in v || '_' in v
  }

  /** The value itself; with a star a pattern; with a character that is special to LIKE, up to letter case. */
  ghost predicate AsksValue(e: Engine, row: MetadataRow, column: Column, ft: FieldToken, bars: bool) {
    if Compares(ft) then AsksOrder(e, row, column, ft)
    else if HasSpecial(ft.value) then LikeMeans(row, column, ft.value)
    else column in row.text && row.text[column] in Choices(ft, bars)
  }

  ghost predicate AsksPath(row: MetadataRow, ft: FieldToken) {
    exists t :: t in Choices(ft, true) && PatternMeans(row, FilePath, t)
  }

  ghost predicate AsksResource(db: Database, row: MetadataRow, lora: bool, v: string) {
    exists r :: r in db.resources && ResourceMeans(r, row, lora, v)
  }

  ghost predicate AsksJson(e: Engine, row: MetadataRow, ft: FieldToken) {
    && ft.key.GetOr("") != "" && Json in row.text
    && var found := e.extract(row.text[Json], "$." + e.dumps(ft.key.value));
    if ft.value == "" then found.Some? else found == Some(TextValue(ft.value))
  }

  predicate AsksSize(e: Engine, row: MetadataRow, v: string) {
    var size := SizeOf(e, v);
    && size.Some? && Width in row.numbers && Height in row.numbers
    && row.numbers[Width] == size.value.0 as real && row.numbers[Height] == size.value.1 as real
  }

  ghost predicate AsksNameOrHash(row: MetadataRow, v: string) {
    if '=' in v
    then (Model in row.text && row.text[Model] == v) || (ModelHash in row.text && row.text[ModelHash] == v)
    else Contains(row, Model, v) || Contains(row, ModelHash, v)
  }

  /** What a filter asks of a row: its field names the column and the kind of comparison. */
  ghost predicate Asks(e: Engine, db: Database, id: int, ft: FieldToken)
    requires id in db.rows
  {
    var row := db.rows[id];
    match ft.field
    case "prompt" => AsksText(e, row, Prompt, ft, false)
    case "negative" => AsksText(e, row, NegativePrompt, ft, false)
    case "name" => AsksText(e, row, Name, ft, false)
    case "tool" => AsksText(e, row, Tool, ft, false)
    case "sampler" => AsksText(e, row, Sampler, ft, true)
    case "scheduler" => AsksText(e, row, Scheduler, ft, false)
    case "vae" => AsksText(e, row, Vae, ft, false)
    case "date" => AsksDate(row, Date, ft)
    case "generation_time" => AsksDate(row, GenerationTime, ft)
    case "width" => AsksNumber(e, row, Width, ft)
    case "height" => AsksNumber(e, row, Height, ft)
    case "steps" => AsksNumber(e, row, Steps, ft)
    case "cfg_scale" => AsksNumber(e, row, CfgScale, ft)
    case "clip_skip" => AsksNumber(e, row, ClipSkip, ft)
    case "hires_upscale" => AsksNumber(e, row, HiresUpscale, ft)
    case "hires_steps" => AsksNumber(e, row, HiresSteps, ft)
    case "denoising_strength" => AsksNumber(e, row, Denoising, ft)
    case "ensd" => AsksNumber(e, row, Ensd, ft)
    case "aesthetic_score" => AsksNumber(e, row, AestheticScore, ft)
    case "seed" => AsksValue(e, row, Seed, ft, true)
    case "aspect_ratio" => AsksValue(e, row, AspectRatio, ft, false)
    case "model_hash" => AsksValue(e, row, ModelHash, ft, false)
    case "model" => AsksModel(e, db, row, ft)
    case "model_or_hash" => AsksNameOrHash(row, ft.value)
    case "path" => AsksPath(row, ft)
    case "raw" => PatternMeans(row, RawText, ft.value)
    case "size" => AsksSize(e, row, ft.value)
    case "lora" => AsksResource(db, row, true, ft.value)
    case "resource_hash" => AsksResource(db, row, false, ft.value)
    case "param" => AsksJson(e, row, ft)
    case "advanced" => AsksJson(e, row, ft)
    case _ => AsksValue(e, row, RawText, ft, false)
  }

  predicate HasHandler(field: string) {
    field in {"raw", "param", "advanced", "model_or_hash", "model", "size", "path", "resource_hash", "lora"}
  }

  predicate IsNumeric(field: string) {
    || field in {"width", "height", "steps", "clip_skip", "hires_steps", "ensd"}
    || field in {"cfg_scale", "hires_upscale", "denoising_strength", "aesthetic_score"}
  }

  /** The value of the filter is valid; an invalid one is an error for the client. */
  predicate Proper(e: Engine, ft: FieldToken) {
    if ft.field == "size" then
      SizeOf(e, ft.value).Some? && SizeOf(e, ft.value).value.0 <= INT_MAX && SizeOf(e, ft.value).value.1 <= INT_MAX
    else if HasHandler(ft.field) then true
    else if ft.field in {"date", "generation_time"} then Compares(ft) ==> IsDate(e, Strip(ft.value))
    else Compares(ft) || IsNumeric(ft.field) ==> FieldNumber(e, ft.field, ft.value).Some?
  }

  /** The fields that are searched as text, and so take a quoted list of terms. */
  predicate IsTextField(field: string) {
    || field in {"prompt", "negative", "name", "tool", "sampler", "scheduler", "vae"}
    || field in {"date", "generation_time", "model"}
  }

  /** SQL raises for a quoted list without a term, and for a JSON filter without a key. */
  predicate Rejected(ft: FieldToken) {
    || (ft.field in {"param", "advanced"} && ft.key.GetOr("") == "")
    || (IsTextField(ft.field) && (Compares(ft) ==> ft.field == "model") && ft.quoteChar != "" && ',' in ft.value
        && forall k :: 0 <= k < |ft.value| ==> ft.value[k] == ',' || IsSpace(ft.value[k]))
  }

  lemma ChoicesAre(ft: FieldToken)
    ensures Alternatives(ft) == Choices(ft, ft.field in {"model", "sampler", "seed", "path"})
    ensures Values(ft) ==
            if ft.quoteChar != "" && ',' in ft.value then Kept(SplitOn(ft.value, ',')) else Alternatives(ft)
    ensures IsTermList(ft) <==> ft.quoteChar != "" && ',' in ft.value
    ensures IsComparison(ft.operator) <==> Compares(ft)
  {
    hide Kept, Segments, SplitOn;
  }

  lemma ListAsks(e: Engine, db: Database, id: int, ft: FieldToken, column: Column, narrow: bool, bars: bool)
    requires id in db.rows && Alternatives(ft) == Choices(ft, bars)
    ensures PlanMeans(e, db, id, Many(IsTermList(ft), TextWants(column, narrow, Values(ft)))) <==>
            AsksList(db.rows[id], column, ft, bars)
  {
    ChoicesAre(ft);
    var row, values, wants := db.rows[id], Values(ft), TextWants(column, narrow, Values(ft));
    hide Values, Alternatives, Choices, Kept, SplitOn, Occurs, IsTermList, PlanMeans;
    var has := t => Contains(row, column, t);
    forall i | 0 <= i < |values|
      ensures Wants(e, db, id, wants[i]) == has(values[i])
    {
      TextWanted(e, db, id, column, narrow, values[i]);
    }
    hide TextWants, Wants, Contains;
    AllOrAny(e, db, id, wants, values, has);
  }

  lemma TextWanted(e: Engine, db: Database, id: int, column: Column, narrow: bool, v: string)
    requires id in db.rows
    ensures Wants(e, db, id, TextWant(column, narrow, v)) == Contains(db.rows[id], column, v)
  {
  }

  lemma ModelWanted(e: Engine, db: Database, id: int, v: string)
    requires id in db.rows
    ensures Wants(e, db, id, ModelWant(v)) == NamesModel(e, db, db.rows[id], v)
  {
    hide Occurs, Lower;
  }

  lemma AllOrAny(e: Engine, db: Database, id: int, wants: seq<Want>, values: seq<string>, has: string -> bool)
    requires id in db.rows && |wants| == |values|
    requires forall i :: 0 <= i < |values| ==> Wants(e, db, id, wants[i]) == has(values[i])
    ensures PlanMeans(e, db, id, Many(true, wants)) <==> forall t :: t in values ==> has(t)
    ensures PlanMeans(e, db, id, Many(false, wants)) <==> exists t :: t in values && has(t)
  {
    hide Wants;
    if PlanMeans(e, db, id, Many(true, wants)) {
      forall t | t in values
        ensures has(t)
      {
        var i :| 0 <= i < |values| && values[i] == t;
        assert Wants(e, db, id, wants[i]);
      }
    }
    if t :| t in values && has(t) {
      var i :| 0 <= i < |values| && values[i] == t;
      assert Wants(e, db, id, wants[i]);
    }
    if PlanMeans(e, db, id, Many(false, wants)) {
      var i :| 0 <= i < |wants| && Wants(e, db, id, wants[i]);
      assert values[i] in values && has(values[i]);
    }
    if forall t :: t in values ==> has(t) {
      assert forall i :: 0 <= i < |values| ==> has(values[i]);
    }
  }

  lemma ModelAsks(e: Engine, db: Database, id: int, ft: FieldToken)
    requires id in db.rows
    ensures PlanMeans(e, db, id, Many(IsTermList(ft), ModelWants(Values(ft)))) <==>
            if ft.quoteChar != "" && ',' in ft.value
            then forall t :: t in Kept(SplitOn(ft.value, ',')) ==> NamesModel(e, db, db.rows[id], t)
            else exists t :: t in Alternatives(ft) && NamesModel(e, db, db.rows[id], t)
  {
    ChoicesAre(ft);
    var row, values, wants := db.rows[id], Values(ft), ModelWants(Values(ft));
    hide Values, Alternatives, Choices, Kept, SplitOn, Occurs, IsTermList, PlanMeans;
    var has := t => NamesModel(e, db, row, t);
    forall i | 0 <= i < |values|
      ensures Wants(e, db, id, wants[i]) == has(values[i])
    {
      ModelWanted(e, db, id, values[i]);
    }
    hide ModelWants, Wants, NamesModel;
    AllOrAny(e, db, id, wants, values, has);
  }

  lemma PathAsks(e: Engine, db: Database, id: int, ft: FieldToken)
    requires id in db.rows
    ensures PlanMeans(e, db, id, Many(false, PathWants(Alternatives(ft)))) <==>
            exists t :: t in Alternatives(ft) && PatternMeans(db.rows[id], FilePath, t)
  {
    var row, values, wants := db.rows[id], Alternatives(ft), PathWants(Alternatives(ft));
    hide Alternatives, PlanMeans, PatternMeans;
    var has := t => PatternMeans(row, FilePath, t);
    assert forall i :: 0 <= i < |values| ==> Wants(e, db, id, wants[i]) == has(values[i]);
    hide PathWants, Wants;
    AllOrAny(e, db, id, wants, values, has);
  }

  lemma ModelPlan(e: Engine, db: Database, id: int, ft: FieldToken)
    requires id in db.rows && ft.field == "model"
    ensures PlanOf(e, ft) == Many(IsTermList(ft), ModelWants(Values(ft)))
    ensures Asks(e, db, id, ft) == AsksModel(e, db, db.rows[id], ft)
  {
    hide Values, IsTermList, ModelWants, AsksModel;
  }

  lemma PathPlan(e: Engine, db: Database, id: int, ft: FieldToken)
    requires id in db.rows && ft.field == "path"
    ensures PlanOf(e, ft) == Many(false, PathWants(Alternatives(ft)))
    ensures Asks(e, db, id, ft) == AsksPath(db.rows[id], ft)
  {
    hide Alternatives, PathWants, AsksPath;
  }

  lemma HandledAsks(e: Engine, db: Database, id: int, ft: FieldToken)
    requires id in db.rows && HasHandler(ft.field) && Proper(e, ft)
    ensures !PlanOf(e, ft).Invalid? && (PlanMeans(e, db, id, PlanOf(e, ft)) <==> Asks(e, db, id, ft))
  {
    hide Values, Alternatives, Choices, Kept, SplitOn, NamesModel, PatternMeans, Asks, PlanOf, PlanMeans, IsTermList;
    hide ModelWants, PathWants;
    ChoicesAre(ft);
    if ft.field == "model" {
      ModelPlan(e, db, id, ft);
      ModelAsks(e, db, id, ft);
    } else if ft.field == "path" {
      PathPlan(e, db, id, ft);
      PathAsks(e, db, id, ft);
    } else {
      OneHandlerAsks(e, db, id, ft);
    }
  }

  lemma OneHandlerAsks(e: Engine, db: Database, id: int, ft: FieldToken)
    requires id in db.rows && HasHandler(ft.field) && ft.field != "model" && ft.field != "path" && Proper(e, ft)
    ensures !PlanOf(e, ft).Invalid? && (PlanMeans(e, db, id, PlanOf(e, ft)) <==> Asks(e, db, id, ft))
  {
    hide PlanOf, Asks, PlanMeans, SizeOf;
    if ft.field == "raw" {
      RawAsks(e, db, id, ft);
    } else if ft.field in {"param", "advanced"} {
      JsonAsks(e, db, id, ft);
    } else if ft.field == "model_or_hash" {
      NameOrHashAsks(e, db, id, ft);
    } else if ft.field == "size" {
      SizeAsks(e, db, id, ft);
    } else {
      ResourceAsks(e, db, id, ft);
    }
  }

  lemma RawAsks(e: Engine, db: Database, id: int, ft: FieldToken)
    requires id in db.rows && ft.field == "raw"
    ensures !PlanOf(e, ft).Invalid? && (PlanMeans(e, db, id, PlanOf(e, ft)) <==> Asks(e, db, id, ft))
  {
    hide PatternMeans;
  }

  lemma JsonAsks(e: Engine, db: Database, id: int, ft: FieldToken)
    requires id in db.rows && ft.field in {"param", "advanced"}
    ensures !PlanOf(e, ft).Invalid? && (PlanMeans(e, db, id, PlanOf(e, ft)) <==> Asks(e, db, id, ft))
  {
  }

  lemma NameOrHashAsks(e: Engine, db: Database, id: int, ft: FieldToken)
    requires id in db.rows && ft.field == "model_or_hash"
    ensures !PlanOf(e, ft).Invalid? && (PlanMeans(e, db, id, PlanOf(e, ft)) <==> Asks(e, db, id, ft))
  {
    hide Occurs;
  }

  lemma SizeAsks(e: Engine, db: Database, id: int, ft: FieldToken)
    requires id in db.rows && ft.field == "size" && Proper(e, ft)
    ensures !PlanOf(e, ft).Invalid? && (PlanMeans(e, db, id, PlanOf(e, ft)) <==> Asks(e, db, id, ft))
  {
    hide SizeOf;
  }

  lemma ResourceAsks(e: Engine, db: Database, id: int, ft: FieldToken)
    requires id in db.rows && ft.field in {"lora", "resource_hash"}
    ensures !PlanOf(e, ft).Invalid? && (PlanMeans(e, db, id, PlanOf(e, ft)) <==> Asks(e, db, id, ft))
  {
    hide ResourceMeans;
  }

  lemma {:induction false} EscapeKeepsIff(v: string)
    ensures Like.Escape(v) == v <==> '\\' !in v && '%' !in v && '_' !in v
    ensures |Like.Escape(v)| >= |v|
  {
    if v != [] {
      EscapeKeepsIff(v[1..]);
      assert v == [v[0]] + v[1..];
      if Like.IsSpecial(v[0]) {
        assert |Like.Escape(v)| > |v|;
      }
    }
  }

  lemma SpecialIff(v: string)
    ensures Like.Pattern(v) != v || '*' in v <==> HasSpecial(v)
  {
    EscapeKeepsIff(v);
    hide Like.Escape;
  }

  lemma ValueAsks(e: Engine, db: Database, id: int, ft: FieldToken, column: Column, bars: bool)
    requires id in db.rows && !Compares(ft) && Alternatives(ft) == Choices(ft, bars)
    ensures PlanMeans(e, db, id,
              if Like.Pattern(ft.value) != ft.value || '*' in ft.value then One(LikeWant(column, ft.value))
              else Many(false, EqualWants(column, Alternatives(ft))))
       <==> AsksValue(e, db.rows[id], column, ft, bars)
  {
    SpecialIff(ft.value);
    EqualAsks(e, db, id, column, Alternatives(ft));
    LikeAsks(e, db, id, column, ft.value);
    hide Like.Pattern, HasSpecial, Alternatives, Choices, PlanMeans, EqualWants, LikeMeans, Compares;
  }

  lemma EqualAsks(e: Engine, db: Database, id: int, column: Column, values: seq<string>)
    requires id in db.rows
    ensures PlanMeans(e, db, id, Many(false, EqualWants(column, values))) <==>
            column in db.rows[id].text && db.rows[id].text[column] in values
  {
    var row, wants := db.rows[id], EqualWants(column, values);
    var has := t => column in row.text && row.text[column] == t;
    assert forall i :: 0 <= i < |values| ==> Wants(e, db, id, wants[i]) == has(values[i]);
    hide EqualWants, Wants, PlanMeans;
    AllOrAny(e, db, id, wants, values, has);
  }

  /** A star at the end asks for a prefix, other stars for a pattern, none for the text up to letter case. */
  ghost predicate LikeMeans(row: MetadataRow, column: Column, v: string) {
    && column in row.text
    && if Like.EndsWithStar(v) then OccursAt(v[..|v| - 1], row.text[column], 0)
       else if '*' in v then Like.Glob(v, row.text[column])
       else SameLetters(v, row.text[column])
  }

  lemma LikeAsks(e: Engine, db: Database, id: int, column: Column, v: string)
    requires id in db.rows
    ensures PlanMeans(e, db, id, One(LikeWant(column, v))) == LikeMeans(db.rows[id], column, v)
  {
    hide Like.Glob, SameLetters, Like.EndsWithStar, OccursAt;
  }

  lemma OrderAsks(e: Engine, db: Database, id: int, ft: FieldToken, column: Column)
    requires id in db.rows && Compares(ft) && FieldNumber(e, ft.field, ft.value).Some?
    ensures PlanMeans(e, db, id, One(TextOrderWant(column, ft.operator, FieldNumber(e, ft.field, ft.value).value))) <==>
            AsksOrder(e, db.rows[id], column, ft)
  {
    if column in db.rows[id].text {
      TextOrder(ft, db.rows[id].text[column], e.render(FieldNumber(e, ft.field, ft.value).value));
    }
    hide FieldNumber, TextsCompare, InTextOrder, Compares;
  }

  lemma TextOrder(ft: FieldToken, a: string, b: string)
    requires Compares(ft)
    ensures TextsCompare(ft.operator, a, b) <==> InTextOrder(ft.operator, a, b)
  {
    NumberOrder(ft.operator, 0.0, 0.0);
    hide StringLess, NumbersCompare;
  }

  lemma DayAsks(e: Engine, db: Database, id: int, ft: FieldToken, column: Column)
    requires id in db.rows && Compares(ft)
    ensures PlanMeans(e, db, id, One(DayWant(column, ft.operator, Strip(ft.value)))) <==>
            AsksDate(db.rows[id], column, ft)
  {
    if column in db.rows[id].text {
      var text := db.rows[id].text[column];
      TextOrder(ft, Day(text), Strip(ft.value));
      assert text[..|text|] == text;
    }
    hide Strip, TextsCompare, InTextOrder, Compares;
  }

  lemma NumberAsks(e: Engine, db: Database, id: int, ft: FieldToken, column: NumberColumn)
    requires id in db.rows && FieldNumber(e, ft.field, ft.value).Some?
    ensures var operator := if Compares(ft) then ft.operator else "=";
      PlanMeans(e, db, id, One(NumberWant(column, operator, FieldNumber(e, ft.field, ft.value).value))) <==>
      AsksNumber(e, db.rows[id], column, ft)
  {
    hide FieldNumber;
    if column in db.rows[id].numbers {
      NumberOrder(ft.operator, db.rows[id].numbers[column], FieldNumber(e, ft.field, ft.value).value.Size());
    }
  }

  lemma NumberOrder(operator: string, x: real, y: real)
    ensures NumbersCompare(operator, x, y) <==>
            if operator == "<" then x < y else if operator == "<=" then x <= y
            else if operator == ">" then x > y else if operator == ">=" then x >= y else x == y
    ensures NumbersCompare("=", x, y) <==> x == y
    ensures "<" != "<=" && "<" != ">" && "<" != ">=" && "<=" != ">" && "<=" != ">=" && ">" != ">="
  {
  }

  lemma StandardList(e: Engine, ft: FieldToken, column: Column)
    requires TextColumn(ft.field) == Some(column) && !IsComparison(ft.operator)
    ensures StandardPlan(e, ft) == Many(IsTermList(ft), TextWants(column, IsNarrowed(ft.field), Values(ft)))
  {
    hide TextColumn, IsNarrowed, IsTermList, Values, TextWants, FieldNumber;
  }

  lemma StandardOrder(e: Engine, ft: FieldToken)
    requires IsComparison(ft.operator) && ft.field !in {"date", "generation_time"}
    requires FieldNumber(e, ft.field, ft.value).Some?
    ensures var number := FieldNumber(e, ft.field, ft.value).value;
      StandardPlan(e, ft) ==
        if NumberColumnOf(ft.field).Some? then One(NumberWant(NumberColumnOf(ft.field).value, ft.operator, number))
        else One(TextOrderWant(ColumnOf(ft.field), ft.operator, number))
  {
    hide TextColumn, NumberColumnOf, ColumnOf, FieldNumber, IsComparison;
  }

  lemma StandardDay(e: Engine, ft: FieldToken)
    requires IsComparison(ft.operator) && ft.field in {"date", "generation_time"} && IsDate(e, Strip(ft.value))
    ensures StandardPlan(e, ft) == One(DayWant(ColumnOf(ft.field), ft.operator, Strip(ft.value)))
  {
    hide TextColumn, NumberColumnOf, ColumnOf, FieldNumber, IsComparison, IsDate, Strip;
  }

  lemma StandardEqual(e: Engine, ft: FieldToken)
    requires !IsComparison(ft.operator) && TextColumn(ft.field) == None
    requires NumberColumnOf(ft.field).Some? ==> FieldNumber(e, ft.field, ft.value).Some?
    ensures StandardPlan(e, ft) ==
            if NumberColumnOf(ft.field).Some?
            then One(NumberWant(NumberColumnOf(ft.field).value, "=", FieldNumber(e, ft.field, ft.value).value))
            else if Like.Pattern(ft.value) != ft.value || '*' in ft.value
            then One(LikeWant(ColumnOf(ft.field), ft.value))
            else Many(false, EqualWants(ColumnOf(ft.field), Alternatives(ft)))
  {
    hide TextColumn, NumberColumnOf, ColumnOf, FieldNumber, IsComparison, Like.Pattern, Alternatives, EqualWants;
  }

  /** A field that is searched as text. */
  lemma TextFieldAsks(e: Engine, db: Database, id: int, ft: FieldToken, column: Column)
    requires id in db.rows && ft.field !in {"date", "generation_time"}
    requires Compares(ft) ==> FieldNumber(e, ft.field, ft.value).Some?
    requires TextColumn(ft.field) == Some(column) && NumberColumnOf(ft.field) == None && ColumnOf(ft.field) == column
    ensures !StandardPlan(e, ft).Invalid?
    ensures PlanMeans(e, db, id, StandardPlan(e, ft)) <==>
            AsksText(e, db.rows[id], column, ft, ft.field in {"model", "sampler", "seed", "path"})
  {
    hide StandardPlan, PlanMeans, TextColumn, NumberColumnOf, ColumnOf, FieldNumber, AsksList, AsksOrder, TextWants;
    hide IsNarrowed, IsTermList, Values, Alternatives, Choices, Kept, SplitOn, Compares, IsComparison;
    ChoicesAre(ft);
    if Compares(ft) {
      StandardOrder(e, ft);
      OrderAsks(e, db, id, ft, column);
    } else {
      StandardList(e, ft, column);
      ListAsks(e, db, id, ft, column, IsNarrowed(ft.field), ft.field in {"model", "sampler", "seed", "path"});
    }
  }

  lemma DateFieldAsks(e: Engine, db: Database, id: int, ft: FieldToken, column: Column)
    requires id in db.rows && ft.field in {"date", "generation_time"} && (Compares(ft) ==> IsDate(e, Strip(ft.value)))
    requires TextColumn(ft.field) == Some(column) && ColumnOf(ft.field) == column
    requires Alternatives(ft) == Choices(ft, false)
    ensures !StandardPlan(e, ft).Invalid?
    ensures PlanMeans(e, db, id, StandardPlan(e, ft)) <==> AsksDate(db.rows[id], column, ft)
  {
    hide StandardPlan, PlanMeans, TextColumn, NumberColumnOf, ColumnOf, FieldNumber, AsksList, TextWants, Strip;
    hide IsNarrowed, IsTermList, Values, Alternatives, Choices, Kept, SplitOn, Compares, IsComparison, IsDate;
    ChoicesAre(ft);
    if Compares(ft) {
      StandardDay(e, ft);
      DayAsks(e, db, id, ft, column);
    } else {
      StandardList(e, ft, column);
      ListAsks(e, db, id, ft, column, IsNarrowed(ft.field), false);
      assert AsksDate(db.rows[id], column, ft) == AsksList(db.rows[id], column, ft, false);
    }
  }

  lemma NumberFieldAsks(e: Engine, db: Database, id: int, ft: FieldToken, column: NumberColumn)
    requires id in db.rows && ft.field !in {"date", "generation_time"} && FieldNumber(e, ft.field, ft.value).Some?
    requires NumberColumnOf(ft.field) == Some(column) && TextColumn(ft.field) == None
    ensures !StandardPlan(e, ft).Invalid?
    ensures PlanMeans(e, db, id, StandardPlan(e, ft)) <==> AsksNumber(e, db.rows[id], column, ft)
  {
    hide StandardPlan, PlanMeans, TextColumn, NumberColumnOf, ColumnOf, FieldNumber, AsksNumber, Compares, IsComparison;
    hide Values, Alternatives, Choices, Kept, SplitOn, IsTermList;
    ChoicesAre(ft);
    NumberAsks(e, db, id, ft, column);
    if Compares(ft) {
      StandardOrder(e, ft);
    } else {
      StandardEqual(e, ft);
    }
  }

  lemma ValueFieldAsks(e: Engine, db: Database, id: int, ft: FieldToken, column: Column)
    requires id in db.rows && ft.field !in {"date", "generation_time"}
    requires Compares(ft) ==> FieldNumber(e, ft.field, ft.value).Some?
    requires TextColumn(ft.field) == None && NumberColumnOf(ft.field) == None && ColumnOf(ft.field) == column
    ensures !StandardPlan(e, ft).Invalid?
    ensures PlanMeans(e, db, id, StandardPlan(e, ft)) <==>
            AsksValue(e, db.rows[id], column, ft, ft.field in {"model", "sampler", "seed", "path"})
  {
    hide StandardPlan, PlanMeans, TextColumn, NumberColumnOf, ColumnOf, FieldNumber, AsksOrder, EqualWants;
    hide IsComparison;
    hide Values, Alternatives, Choices, Kept, SplitOn, IsTermList, Compares, Like.Pattern;
    ChoicesAre(ft);
    if Compares(ft) {
      StandardOrder(e, ft);
      OrderAsks(e, db, id, ft, column);
    } else {
      StandardEqual(e, ft);
      ValueAsks(e, db, id, ft, column, ft.field in {"model", "sampler", "seed", "path"});
      hide AsksValue;
    }
  }

  /** Where the source's column map puts a field without a handler. */
  lemma ColumnsAre(field: string)
    requires !HasHandler(field)
    ensures field in {"date", "generation_time"} ==>
              TextColumn(field) == Some(if field == "date" then Date else GenerationTime)
    ensures TextColumn(field).Some? ==> NumberColumnOf(field) == None && ColumnOf(field) == TextColumn(field).value
    ensures NumberColumnOf(field).Some? <==> IsNumeric(field)
    ensures NumberColumnOf(field).Some? ==> TextColumn(field) == None
  {
  }

  lemma AsksByColumn(e: Engine, db: Database, id: int, ft: FieldToken)
    requires id in db.rows && !HasHandler(ft.field)
    ensures var (f, row) := (ft.field, db.rows[id]);
      var bars := f in {"model", "sampler", "seed", "path"};
      Asks(e, db, id, ft) ==
        if f in {"date", "generation_time"} then AsksDate(row, if f == "date" then Date else GenerationTime, ft)
        else if TextColumn(f).Some? then AsksText(e, row, TextColumn(f).value, ft, bars)
        else if NumberColumnOf(f).Some? then AsksNumber(e, row, NumberColumnOf(f).value, ft)
        else AsksValue(e, row, ColumnOf(f), ft, bars)
  {
    hide AsksDate, AsksText, AsksNumber, AsksValue;
  }

  /** A filter without a handler asks for what its field says. */
  lemma StandardAsks(e: Engine, db: Database, id: int, ft: FieldToken)
    requires id in db.rows && Proper(e, ft) && !HasHandler(ft.field)
    ensures !StandardPlan(e, ft).Invalid? && (PlanMeans(e, db, id, StandardPlan(e, ft)) <==> Asks(e, db, id, ft))
  {
    var f := ft.field;
    assert f != "size" && (f in {"date", "generation_time"} ==> Compares(ft) ==> IsDate(e, Strip(ft.value)));
    assert f !in {"date", "generation_time"} ==>
        Compares(ft) || IsNumeric(f) ==> FieldNumber(e, f, ft.value).Some?;
    hide StandardPlan, PlanMeans, AsksText, AsksDate, AsksNumber, AsksValue, Proper, TextColumn, NumberColumnOf;
    hide ColumnOf;
    hide Asks, Choices, Alternatives, FieldNumber, IsDate, HasHandler, IsNumeric, Compares;
    ColumnsAre(f);
    AsksByColumn(e, db, id, ft);
    ChoicesAre(ft);
    if f in {"date", "generation_time"} {
      assert f !in {"model", "sampler", "seed", "path"};
      DateFieldAsks(e, db, id, ft, if f == "date" then Date else GenerationTime);
    } else if TextColumn(f).Some? {
      TextFieldAsks(e, db, id, ft, TextColumn(f).value);
    } else if NumberColumnOf(f).Some? {
      NumberFieldAsks(e, db, id, ft, NumberColumnOf(f).value);
    } else {
      ValueFieldAsks(e, db, id, ft, ColumnOf(f));
    }
  }

  /** The plan of a filter is an error iff its value is not valid, and otherwise asks for what the filter asks for. */
  lemma PlanAsks(e: Engine, db: Database, id: int, ft: FieldToken)
    requires id in db.rows && Proper(e, ft)
    ensures !PlanOf(e, ft).Invalid? && (PlanMeans(e, db, id, PlanOf(e, ft)) <==> Asks(e, db, id, ft))
  {
    if HasHandler(ft.field) {
      HandledAsks(e, db, id, ft);
    } else {
      StandardAsks(e, db, id, ft);
    }
    hide Asks, PlanMeans, StandardPlan, Proper;
  }

  lemma InvalidIff(e: Engine, ft: FieldToken)
    ensures PlanOf(e, ft).Invalid? <==> !Proper(e, ft)
  {
    if Proper(e, ft) {
      var db := Database(map[0 := MetadataRow(map[], map[])], {}, {});
      PlanAsks(e, db, 0, ft);
    } else {
      hide FieldNumber, SizeOf, IsDate, Strip, IsNumeric, NumberColumnOf, Like.Pattern;
      ImproperIsInvalid(e, ft);
    }
  }

  lemma ImproperIsInvalid(e: Engine, ft: FieldToken)
    requires !Proper(e, ft)
    ensures PlanOf(e, ft).Invalid?
  {
    hide FieldNumber, SizeOf, IsDate, Strip, NumberColumnOf, TextColumn, ColumnOf, Like.Pattern, StandardPlan, Compares;
    if ft.field != "size" {
      ImproperStandard(e, ft);
    }
  }

  lemma ImproperStandard(e: Engine, ft: FieldToken)
    requires !Proper(e, ft) && ft.field != "size"
    ensures StandardPlan(e, ft).Invalid?
  {
    ColumnsAre(ft.field);
    ChoicesAre(ft);
    hide FieldNumber, SizeOf, IsDate, Strip, NumberColumnOf, TextColumn, ColumnOf, Like.Pattern, Compares, IsComparison;
    hide IsTermList, Values, Alternatives, Choices, IsNumeric;
  }

  lemma ListsAreTaken(e: Engine, ft: FieldToken)
    ensures match PlanOf(e, ft)
            case Many(_, wants) => forall i :: 0 <= i < |wants| ==> !wants[i].RejectedWant?
            case _ => true
  {
    hide Values, Alternatives, FieldNumber, SizeOf, IsDate, Like.Pattern, Strip;
  }

  ghost predicate PlanMeans(e: Engine, db: Database, id: int, p: Plan)
    requires id in db.rows
  {
    match p
    case Invalid => false
    case One(w) => Wants(e, db, id, w)
    case Many(all, ws) =>
      if all then forall i :: 0 <= i < |ws| ==> Wants(e, db, id, ws[i])
      else exists i :: 0 <= i < |ws| && Wants(e, db, id, ws[i])
  }

  /** SQL takes the condition. */
  predicate Accepted(p: Plan) {
    match p
    case Invalid => false
    case One(w) => !w.RejectedWant?
    case Many(_, ws) => ws != []
  }

  /** A condition that holds of exactly the rows a value asks for. */
  ghost predicate Says(e: Engine, db: Database, params: Params, n: nat, c: Cond, w: Want) {
    Bound(c, n) && Binds(params, n) && (WellFormed(c) <==> !w.RejectedWant?)
    && forall id :: id in db.rows ==> Eval(e, db, params, n, c, id) == Wants(e, db, id, w)
  }

  ghost predicate SaysPlan(e: Engine, db: Database, params: Params, n: nat, c: Cond, p: Plan) {
    Bound(c, n) && Binds(params, n) && (WellFormed(c) <==> Accepted(p))
    && forall id :: id in db.rows ==> Eval(e, db, params, n, c, id) == PlanMeans(e, db, id, p)
  }

  ghost predicate Extends(before: Params, m: nat, after: Params, n: nat) {
    m <= n && Binds(before, m) && Binds(after, n) && forall k :: 0 <= k < m ==> after[k] == before[k]
  }

  lemma StillSays(e: Engine, db: Database, before: Params, m: nat, after: Params, n: nat, c: Cond, w: Want)
    requires Says(e, db, before, m, c, w) && Extends(before, m, after, n)
    ensures Says(e, db, after, n, c, w)
  {
    hide Wants, Eval, WellFormed, Bound;
    BoundGrows(c, m, n);
    forall id | id in db.rows
      ensures Eval(e, db, after, n, c, id) == Wants(e, db, id, w)
    {
      LaterParamsChangeNothing(e, db, before, m, after, n, c, id);
    }
  }

  lemma StillSaysPlan(e: Engine, db: Database, before: Params, m: nat, after: Params, n: nat, c: Cond, p: Plan)
    requires SaysPlan(e, db, before, m, c, p) && Extends(before, m, after, n)
    ensures SaysPlan(e, db, after, n, c, p)
  {
    hide PlanMeans, Accepted, Eval, WellFormed, Bound;
    BoundGrows(c, m, n);
    forall id | id in db.rows
      ensures Eval(e, db, after, n, c, id) == PlanMeans(e, db, id, p)
    {
      LaterParamsChangeNothing(e, db, before, m, after, n, c, id);
    }
  }

  lemma {:induction false} BoundGrows(c: Cond, m: nat, n: nat)
    requires Bound(c, m) && m <= n
    ensures Bound(c, n)
    decreases c
  {
    match c
    case Both(l, r) => BoundGrows(l, m, n); BoundGrows(r, m, n);
    case Either(l, r) => BoundGrows(l, m, n); BoundGrows(r, m, n);
    case Group(_, parts) =>
      forall i | 0 <= i < |parts|
        ensures Bound(parts[i], n)
      {
        BoundGrows(parts[i], m, n);
      }
    case _ =>
  }

  // ---------------------------------------------------------------- conditions that say what is wanted

  lemma TextPart(e: Engine, db: Database, params: Params, n: nat, c: Cond, w: Want, like: nat, phrase: nat)
    requires FoldsLetters(e) && Binds(params, n) && w.TextWant?
    requires like < n && params[like] == TextValue("%" + Like.Escape(w.v) + "%")
    requires if w.narrow && Selective(w.v)
             then phrase < n && params[phrase] == TextValue(Quoted(Strip(w.v)))
                  && c == Both(TrigramIds(w.column, phrase), LikeCond(w.column, like))
             else c == LikeCond(w.column, like)
    ensures Says(e, db, params, n, c, w)
  {
    if w.narrow && Selective(w.v) {
      Combined(TrigramIds(w.column, phrase), LikeCond(w.column, like), n);
    }
    forall id | id in db.rows
      ensures Eval(e, db, params, n, c, id) == Wants(e, db, id, w)
    {
      if w.narrow && Selective(w.v) {
        NarrowedLike(e, db, id, w.column, w.v);
      } else {
        ContainsLike(db.rows[id], w.column, w.v);
      }
      hide LikeHolds, TrigramHit, TextMeans, Selective;
    }
  }

  lemma ContainsLike(row: MetadataRow, column: Column, v: string)
    ensures LikeHolds(row, column, "%" + Like.Escape(v) + "%") <==> TextMeans(row, column, v)
  {
    if column in row.text {
      Like.ContainsPattern(v, row.text[column]);
    }
  }

  lemma Combined(a: Cond, b: Cond, n: nat)
    requires Bound(a, n) && Bound(b, n) && WellFormed(a) && WellFormed(b)
    ensures Bound(Both(a, b), n) && Bound(Either(a, b), n) && WellFormed(Both(a, b)) && WellFormed(Either(a, b))
  {
  }

  /** "id IN (trigram UNION alias) AND (direct OR alias)" is "direct OR alias". */
  lemma ModelPart(
    e: Engine, db: Database, params: Params, n: nat, c: Cond, v: string, like: nat, alias: nat, phrase: nat)
    requires FoldsLetters(e) && Binds(params, n)
    requires like < n && params[like] == TextValue("%" + Like.Escape(v) + "%")
    requires '*' !in v ==> alias < n && params[alias] == TextValue(e.normalize(v))
    requires if '*' in v then c == LikeCond(Model, like)
             else if Selective(v)
             then phrase < n && params[phrase] == TextValue(Quoted(Strip(v)))
                  && c == Both(TrigramOrAliasIds(Model, phrase, alias), Either(LikeCond(Model, like), Alias(alias)))
             else c == Either(LikeCond(Model, like), Alias(alias))
    ensures Says(e, db, params, n, c, ModelWant(v))
  {
    hide LikeHolds, TrigramHit, TextMeans, AliasHolds, FoldsLetters;
    var direct, known := LikeCond(Model, like), Alias(alias);
    if '*' !in v {
      Combined(direct, known, n);
      if Selective(v) {
        Combined(TrigramOrAliasIds(Model, phrase, alias), Either(direct, known), n);
      }
    }
    forall id | id in db.rows
      ensures Eval(e, db, params, n, c, id) == Wants(e, db, id, ModelWant(v))
    {
      ContainsLike(db.rows[id], Model, v);
      if Selective(v) {
        NarrowedLike(e, db, id, Model, v);
      }
      assert Eval(e, db, params, n, direct, id) == TextMeans(db.rows[id], Model, v);
      if Selective(v) {
        assert Eval(e, db, params, n, c.right, id) ==
               (Eval(e, db, params, n, direct, id) || Eval(e, db, params, n, known, id));
      }
    }
  }

  lemma PatternPart(e: Engine, db: Database, params: Params, n: nat, column: Column, v: string, like: nat)
    requires Binds(params, n) && like < n && params[like] == TextValue("%" + Like.Pattern(v) + "%")
    ensures Says(e, db, params, n, LikeCond(column, like), PatternWant(column, v))
  {
    forall id | id in db.rows
      ensures Eval(e, db, params, n, LikeCond(column, like), id) == Wants(e, db, id, PatternWant(column, v))
    {
      PathPattern(db.rows[id], column, v);
      hide PatternMeans, LikeHolds;
    }
  }

  lemma LikePart(e: Engine, db: Database, params: Params, n: nat, column: Column, v: string, like: nat)
    requires Binds(params, n) && like < n && params[like] == TextValue(Like.Pattern(v))
    ensures Says(e, db, params, n, LikeCond(column, like), LikeWant(column, v))
  {
    forall id | id in db.rows
      ensures Eval(e, db, params, n, LikeCond(column, like), id) == Wants(e, db, id, LikeWant(column, v))
    {
      if column in db.rows[id].text {
        Like.PatternMeaning(v, db.rows[id].text[column]);
      }
    }
  }

  lemma NameOrHashPart(e: Engine, db: Database, params: Params, n: nat, c: Cond, v: string, name: nat, hash: nat)
    requires Binds(params, n) && name < n && hash < n && params[name] == params[hash]
    requires params[name] == TextValue(if '=' in v then v else "%" + Like.Escape(v) + "%")
    requires c == if '=' in v then Either(EqualCond(Model, name), EqualCond(ModelHash, hash))
                  else Either(LikeCond(Model, name), LikeCond(ModelHash, hash))
    ensures Says(e, db, params, n, c, NameOrHashWant(v))
  {
    Combined(c.left, c.right, n);
    forall id | id in db.rows
      ensures Eval(e, db, params, n, c, id) == Wants(e, db, id, NameOrHashWant(v))
    {
      ContainsLike(db.rows[id], Model, v);
      ContainsLike(db.rows[id], ModelHash, v);
      hide LikeHolds, TextMeans;
      assert Eval(e, db, params, n, c, id) ==
             (Eval(e, db, params, n, c.left, id) || Eval(e, db, params, n, c.right, id));
    }
  }

  lemma HasPattern(s: Option<string>, v: string)
    ensures LikeOption(s, "%" + Like.Escape(v) + "%") <==> Has(s, v)
  {
    if s.Some? {
      Like.ContainsPattern(v, s.value);
    }
  }

  lemma ResourcePart(
    e: Engine, db: Database, params: Params, n: nat, lora: bool, v: string, names: Option<nat>, p: nat, q: nat)
    requires Binds(params, n) && p < n && q < n && names.Some? == lora && (names.Some? ==> names.value < n)
    requires var pattern := TextValue("%" + Like.Escape(v) + "%");
      params[p] == params[q] == pattern && (names.Some? ==> params[names.value] == pattern)
    ensures Says(e, db, params, n, ResourceExists(lora, names, p, q), ResourceWant(lora, v))
  {
    forall id | id in db.rows
      ensures Eval(e, db, params, n, ResourceExists(lora, names, p, q), id) == Wants(e, db, id, ResourceWant(lora, v))
    {
      forall r | r in db.resources
        ensures ResourceHolds(r, db.rows[id], lora, PatternOf(params, names), TextOf(params[p]), TextOf(params[q]))
           <==> ResourceMeans(r, db.rows[id], lora, v)
      {
        HasPattern(r.name, v);
        HasPattern(r.resourceHash, v);
        HasPattern(r.hash, v);
        hide LikeOption, Has;
      }
      hide ResourceHolds, ResourceMeans;
    }
  }

  lemma JsonPart(
    e: Engine, db: Database, params: Params, n: nat, c: Cond, key: string, v: string, path: nat, value: nat)
    requires Binds(params, n) && path < n && value < n && params[path] == TextValue("$." + e.dumps(key))
    requires v != "" ==> params[value] == TextValue(v)
    requires c == if v == "" then JsonPresent(path) else JsonEquals(path, value)
    ensures Says(e, db, params, n, c, JsonWant(key, v))
  {
  }

  lemma SizePart(e: Engine, db: Database, params: Params, n: nat, width: nat, height: nat, w: nat, h: nat)
    requires Binds(params, n) && w < n && h < n
    requires params[w] == NumberValue(Whole(width)) && params[h] == NumberValue(Whole(height))
    ensures Says(e, db, params, n, Both(NumberCond(Width, "=", w), NumberCond(Height, "=", h)), SizeWant(width, height))
  {
    var first, second := NumberCond(Width, "=", w), NumberCond(Height, "=", h);
    Combined(first, second, n);
    forall id | id in db.rows
      ensures Eval(e, db, params, n, Both(first, second), id) == Wants(e, db, id, SizeWant(width, height))
    {
      assert Eval(e, db, params, n, first, id) == NumberHolds(db.rows[id], Width, "=", params[w]);
      assert Eval(e, db, params, n, second, id) == NumberHolds(db.rows[id], Height, "=", params[h]);
    }
  }

  class ConditionBuilder {
    var conditions: seq<Cond>
    var params: Params
    var paramIdx: nat
    const engine: Engine

    ghost predicate Valid()
      reads this
    {
      Binds(params, paramIdx) && forall i :: 0 <= i < |conditions| ==> Bound(conditions[i], paramIdx)
    }

    constructor (e: Engine)
      ensures Valid() && conditions == [] && engine == e
    {
      conditions, params, paramIdx, engine := [], map[], 0, e;
    }

    /** A fresh parameter name; names handed out before keep their value. */
    method NextParam(value: SqlValue) returns (name: nat)
      requires Valid()
      modifies `params, `paramIdx
      ensures Valid() && name == old(paramIdx) && paramIdx == name + 1 && params == old(params)[name := value]
      ensures Extends(old(params), old(paramIdx), params, paramIdx)
    {
      name := paramIdx;
      params := params[name := value];
      paramIdx := paramIdx + 1;
      forall i | 0 <= i < |conditions|
        ensures Bound(conditions[i], paramIdx)
      {
        BoundGrows(conditions[i], name, paramIdx);
      }
    }

    /** The condition of a text or model value, with a candidate lookup where that is selective. */
    method NarrowedPart(w: Want, ghost db: Database) returns (c: Cond)
      requires Valid() && FoldsLetters(engine) && (w.TextWant? || w.ModelWant?)
      modifies `params, `paramIdx
      ensures Valid() && Says(engine, db, params, paramIdx, c, w)
      ensures Extends(old(params), old(paramIdx), params, paramIdx)
    {
      hide Says, FoldsLetters;
      var like := NextParam(TextValue("%" + Like.Escape(w.v) + "%"));
      if w.TextWant? {
        var phrase := like;
        c := LikeCond(w.column, like);
        if w.narrow && Selective(w.v) {
          phrase := NextParam(TextValue(Quoted(Strip(w.v))));
          c := Both(TrigramIds(w.column, phrase), c);
        }
        TextPart(engine, db, params, paramIdx, c, w, like, phrase);
      } else {
        var alias, phrase := like, like;
        c := LikeCond(Model, like);
        if '*' !in w.v {
          alias := NextParam(TextValue(engine.normalize(w.v)));
          c := Either(c, Alias(alias));
          if Selective(w.v) {
            phrase := NextParam(TextValue(Quoted(Strip(w.v))));
            c := Both(TrigramOrAliasIds(Model, phrase, alias), c);
          }
        }
        ModelPart(engine, db, params, paramIdx, c, w.v, like, alias, phrase);
      }
    }

    /** The condition of a value that names or describes a model, a resource or a JSON property. */
    method NamedPart(w: Want, ghost db: Database) returns (c: Cond)
      requires Valid() && (w.NameOrHashWant? || w.ResourceWant? || w.JsonWant?)
      modifies `params, `paramIdx
      ensures Valid() && Says(engine, db, params, paramIdx, c, w)
      ensures Extends(old(params), old(paramIdx), params, paramIdx)
    {
      hide Says;
      match w
      case NameOrHashWant(v) =>
        var value := TextValue(if '=' in v then v else "%" + Like.Escape(v) + "%");
        var name := NextParam(value);
        var hash := NextParam(value);
        c := if '=' in v then Either(EqualCond(Model, name), EqualCond(ModelHash, hash))
             else Either(LikeCond(Model, name), LikeCond(ModelHash, hash));
        NameOrHashPart(engine, db, params, paramIdx, c, v, name, hash);
      case ResourceWant(lora, v) =>
        var pattern := TextValue("%" + Like.Escape(v) + "%");
        var names: Option<nat> := None;
        if lora {
          var name := NextParam(pattern);
          names := Some(name);
        }
        var p := NextParam(pattern);
        var q := NextParam(pattern);
        c := ResourceExists(lora, names, p, q);
        ResourcePart(engine, db, params, paramIdx, lora, v, names, p, q);
      case JsonWant(key, v) =>
        var path := NextParam(TextValue("$." + engine.dumps(key)));
        c := JsonPresent(path);
        var value := path;
        if v != "" {
          value := NextParam(TextValue(v));
          c := JsonEquals(path, value);
        }
        JsonPart(engine, db, params, paramIdx, c, key, v, path, value);
    }

    /** The condition of any other value. */
    method PlainPart(w: Want, ghost db: Database) returns (c: Cond)
      requires Valid()
      requires !(w.TextWant? || w.ModelWant? || w.NameOrHashWant? || w.ResourceWant? || w.JsonWant?)
      modifies `params, `paramIdx
      ensures Valid() && Says(engine, db, params, paramIdx, c, w)
      ensures Extends(old(params), old(paramIdx), params, paramIdx)
    {
      hide PatternMeans;
      match w
      case PatternWant(column, v) =>
        var like := NextParam(TextValue("%" + Like.Pattern(v) + "%"));
        c := LikeCond(column, like);
        PatternPart(engine, db, params, paramIdx, column, v, like);
      case LikeWant(column, v) =>
        var like := NextParam(TextValue(Like.Pattern(v)));
        c := LikeCond(column, like);
        LikePart(engine, db, params, paramIdx, column, v, like);
      case EqualWant(column, v) =>
        var equal := NextParam(TextValue(v));
        c := EqualCond(column, equal);
      case NumberWant(column, operator, number) =>
        var bound := NextParam(NumberValue(number));
        c := NumberCond(column, operator, bound);
      case TextOrderWant(column, operator, number) =>
        var bound := NextParam(NumberValue(number));
        c := TextCompare(column, operator, bound);
      case DayWant(column, operator, day) =>
        var bound := NextParam(TextValue(day));
        c := DayCompare(column, operator, bound);
      case SizeWant(width, height) =>
        var w' := NextParam(NumberValue(Whole(width)));
        var h' := NextParam(NumberValue(Whole(height)));
        c := Both(NumberCond(Width, "=", w'), NumberCond(Height, "=", h'));
        SizePart(engine, db, params, paramIdx, width, height, w', h');
      case FullTextWant(query) =>
        var text := NextParam(TextValue(query));
        c := FullText(text);
      case RejectedWant(v) =>
        var like := NextParam(TextValue("%\"" + v + "%"));
        c := BadEscape(like);
    }

    method Part(w: Want, ghost db: Database) returns (c: Cond)
      requires Valid() && FoldsLetters(engine)
      modifies `params, `paramIdx
      ensures Valid() && Says(engine, db, params, paramIdx, c, w)
      ensures Extends(old(params), old(paramIdx), params, paramIdx)
    {
      hide Says, FoldsLetters, Extends;
      if w.TextWant? || w.ModelWant? {
        c := NarrowedPart(w, db);
      } else if w.NameOrHashWant? || w.ResourceWant? || w.JsonWant? {
        c := NamedPart(w, db);
      } else {
        c := PlainPart(w, db);
      }
    }

    /** The parts of one filter, in value order. */
    method Parts(wants: seq<Want>, ghost db: Database) returns (parts: seq<Cond>)
      requires Valid() && FoldsLetters(engine)
      modifies `params, `paramIdx
      ensures Valid() && |parts| == |wants| && Extends(old(params), old(paramIdx), params, paramIdx)
      ensures forall i :: 0 <= i < |parts| ==> Says(engine, db, params, paramIdx, parts[i], wants[i])
    {
      hide Says, FoldsLetters;
      parts := [];
      for k := 0 to |wants|
        invariant Valid() && |parts| == k && Extends(old(params), old(paramIdx), params, paramIdx)
        invariant forall i :: 0 <= i < k ==> Says(engine, db, params, paramIdx, parts[i], wants[i])
      {
        ghost var before, m := params, paramIdx;
        var c := Part(wants[k], db);
        forall i | 0 <= i < k
          ensures Says(engine, db, params, paramIdx, parts[i], wants[i])
        {
          StillSays(engine, db, before, m, params, paramIdx, parts[i], wants[i]);
        }
        parts := parts + [c];
      }
    }

    /** Appends the condition of one filter; an invalid value appends nothing and is reported. */
    method AddFilter(ft: FieldToken, ghost db: Database) returns (valid: bool)
      requires Valid() && FoldsLetters(engine)
      modifies this
      ensures Valid() && Extends(old(params), old(paramIdx), params, paramIdx)
      ensures valid <==> Proper(engine, ft)
      ensures !valid ==> conditions == old(conditions) && params == old(params) && paramIdx == old(paramIdx)
      ensures valid ==>
                && |conditions| == |old(conditions)| + 1 && conditions[..|old(conditions)|] == old(conditions)
                && SaysPlan(engine, db, params, paramIdx, conditions[|old(conditions)|], PlanOf(engine, ft))
                && SaysFilter(engine, db, params, paramIdx, conditions[|old(conditions)|], ft)
    {
      var plan := PlanOf(engine, ft);
      ListsAreTaken(engine, ft);
      InvalidIff(engine, ft);
      hide PlanOf, Says, SaysPlan, SaysFilter, FoldsLetters, Proper;
      match plan
      case Invalid =>
        valid := false;
      case One(w) =>
        var c := Part(w, db);
        OneSays(engine, db, params, paramIdx, c, w);
        FilterSaid(engine, db, params, paramIdx, c, ft);
        conditions, valid := conditions + [c], true;
      case Many(all, wants) =>
        var parts := Parts(wants, db);
        GroupSays(engine, db, params, paramIdx, parts, all, wants);
        FilterSaid(engine, db, params, paramIdx, Group(all, parts), ft);
        conditions, valid := conditions + [Group(all, parts)], true;
    }
  }

  /** A condition that holds of exactly the rows a filter asks for, and that SQL takes unless the filter is rejected. */
  ghost predicate SaysFilter(e: Engine, db: Database, params: Params, n: nat, c: Cond, ft: FieldToken) {
    Bound(c, n) && Binds(params, n) && (WellFormed(c) <==> !Rejected(ft))
    && forall id :: id in db.rows ==> (Eval(e, db, params, n, c, id) <==> Asks(e, db, id, ft))
  }

  lemma FilterSaid(e: Engine, db: Database, params: Params, n: nat, c: Cond, ft: FieldToken)
    requires Proper(e, ft) && SaysPlan(e, db, params, n, c, PlanOf(e, ft))
    ensures SaysFilter(e, db, params, n, c, ft)
  {
    hide Proper, PlanOf, PlanMeans, Eval, Asks, Accepted, WellFormed, Rejected, Bound, Binds;
    RejectedIff(e, ft);
    forall id | id in db.rows
      ensures Eval(e, db, params, n, c, id) <==> Asks(e, db, id, ft)
    {
      PlanAsks(e, db, id, ft);
    }
  }

  lemma OneSays(e: Engine, db: Database, params: Params, n: nat, c: Cond, w: Want)
    requires Says(e, db, params, n, c, w)
    ensures SaysPlan(e, db, params, n, c, One(w)) && Bound(c, n)
  {
    hide Eval, Wants, WellFormed;
  }

  lemma GroupHolds(
    e: Engine, db: Database, params: Params, n: nat, parts: seq<Cond>, all: bool, wants: seq<Want>, id: int)
    requires |parts| == |wants| && Binds(params, n) && id in db.rows
    requires forall i :: 0 <= i < |parts| ==> Says(e, db, params, n, parts[i], wants[i])
    ensures Bound(Group(all, parts), n)
    ensures Eval(e, db, params, n, Group(all, parts), id) == PlanMeans(e, db, id, Many(all, wants))
  {
    forall i | 0 <= i < |parts|
      ensures Bound(parts[i], n) && Eval(e, db, params, n, parts[i], id) == Wants(e, db, id, wants[i])
    {
      assert Says(e, db, params, n, parts[i], wants[i]);
      hide Eval, Wants, WellFormed;
    }
    hide Says, Wants;
  }

  lemma GroupSays(e: Engine, db: Database, params: Params, n: nat, parts: seq<Cond>, all: bool, wants: seq<Want>)
    requires |parts| == |wants| && Binds(params, n) && forall i :: 0 <= i < |wants| ==> !wants[i].RejectedWant?
    requires forall i :: 0 <= i < |parts| ==> Says(e, db, params, n, parts[i], wants[i])
    ensures SaysPlan(e, db, params, n, Group(all, parts), Many(all, wants)) && Bound(Group(all, parts), n)
  {
    forall i | 0 <= i < |parts|
      ensures Bound(parts[i], n) && WellFormed(parts[i])
    {
      assert Says(e, db, params, n, parts[i], wants[i]);
      hide Eval, Wants;
    }
    hide Says, Eval, PlanMeans;
    forall id | id in db.rows
      ensures Eval(e, db, params, n, Group(all, parts), id) == PlanMeans(e, db, id, Many(all, wants))
    {
      GroupHolds(e, db, params, n, parts, all, wants, id);
    }
  }

  /** What a whole query asks of a row: its free text, if any, and every filter. */
  ghost predicate QueryMeans(e: Engine, db: Database, id: int, residual: string, tokens: seq<FieldToken>)
    requires id in db.rows
  {
    && (residual != "" ==> e.fullText(MatchQuery(e, residual), db.rows[id]))
    && forall i :: 0 <= i < |tokens| ==> PlanMeans(e, db, id, PlanOf(e, tokens[i]))
  }

  /** The same, field by field. */
  ghost predicate QueryAsks(e: Engine, db: Database, id: int, residual: string, tokens: seq<FieldToken>)
    requires id in db.rows
  {
    && (residual != "" ==> e.fullText(MatchQuery(e, residual), db.rows[id]))
    && forall i :: 0 <= i < |tokens| ==> Asks(e, db, id, tokens[i])
  }

  lemma QueryAsksIff(e: Engine, db: Database, id: int, residual: string, tokens: seq<FieldToken>)
    requires id in db.rows && forall i :: 0 <= i < |tokens| ==> Proper(e, tokens[i])
    ensures QueryMeans(e, db, id, residual, tokens) <==> QueryAsks(e, db, id, residual, tokens)
  {
    hide Proper, Asks, PlanOf, PlanMeans, MatchQuery;
    forall i | 0 <= i < |tokens|
      ensures PlanMeans(e, db, id, PlanOf(e, tokens[i])) <==> Asks(e, db, id, tokens[i])
    {
      PlanAsks(e, db, id, tokens[i]);
    }
  }

  /** The plans of a query, one for each condition. */
  function PlansOf(e: Engine, residual: string, tokens: seq<FieldToken>): (r: seq<Plan>)
    ensures |r| == |tokens| + if residual == "" then 0 else 1
  {
    (if residual == "" then [] else [One(FullTextWant(MatchQuery(e, residual)))])
    + seq(|tokens|, i requires 0 <= i < |tokens| => PlanOf(e, tokens[i]))
  }

  lemma PlansMeanQuery(e: Engine, db: Database, id: int, residual: string, tokens: seq<FieldToken>)
    requires id in db.rows
    ensures QueryMeans(e, db, id, residual, tokens) <==>
            var plans := PlansOf(e, residual, tokens); forall i :: 0 <= i < |plans| ==> PlanMeans(e, db, id, plans[i])
  {
    hide PlanOf, MatchQuery;
    var plans, n := PlansOf(e, residual, tokens), if residual == "" then 0 else 1;
    assert residual != "" ==> plans[0] == One(FullTextWant(MatchQuery(e, residual)));
    forall i | 0 <= i < |tokens|
      ensures plans[n + i] == PlanOf(e, tokens[i])
    {
    }
    if forall i :: 0 <= i < |plans| ==> PlanMeans(e, db, id, plans[i]) {
      assert residual != "" ==> PlanMeans(e, db, id, plans[0]);
      forall i | 0 <= i < |tokens|
        ensures PlanMeans(e, db, id, PlanOf(e, tokens[i]))
      {
        assert PlanMeans(e, db, id, plans[n + i]);
      }
    }
    if QueryMeans(e, db, id, residual, tokens) {
      forall i | 0 <= i < |plans|
        ensures PlanMeans(e, db, id, plans[i])
      {
        assert i >= n ==> plans[i] == PlanOf(e, tokens[i - n]);
      }
    }
  }

  /** Each condition says its plan. */
  ghost predicate AllSay(e: Engine, db: Database, params: Params, n: nat, conditions: seq<Cond>, plans: seq<Plan>) {
    |conditions| == |plans| && forall i :: 0 <= i < |plans| ==> SaysPlan(e, db, params, n, conditions[i], plans[i])
  }

  /** The WHERE clause: all conditions hold. */
  ghost predicate Selects(e: Engine, db: Database, params: Params, n: nat, conditions: seq<Cond>, id: int)
    requires Binds(params, n) && id in db.rows && forall i :: 0 <= i < |conditions| ==> Bound(conditions[i], n)
  {
    forall i :: 0 <= i < |conditions| ==> Eval(e, db, params, n, conditions[i], id)
  }

  lemma SelectsWhatIsMeant(
    e: Engine, db: Database, params: Params, n: nat, conditions: seq<Cond>, residual: string, tokens: seq<FieldToken>)
    requires Binds(params, n) && AllSay(e, db, params, n, conditions, PlansOf(e, residual, tokens))
    ensures forall i :: 0 <= i < |conditions| ==> Bound(conditions[i], n)
    ensures forall id :: id in db.rows ==>
              (Selects(e, db, params, n, conditions, id) <==> QueryMeans(e, db, id, residual, tokens))
  {
    var plans := PlansOf(e, residual, tokens);
    forall i | 0 <= i < |conditions|
      ensures Bound(conditions[i], n)
    {
      assert SaysPlan(e, db, params, n, conditions[i], plans[i]);
      hide Eval, PlanMeans, WellFormed;
    }
    forall id | id in db.rows
      ensures Selects(e, db, params, n, conditions, id) <==> QueryMeans(e, db, id, residual, tokens)
    {
      PlansMeanQuery(e, db, id, residual, tokens);
      hide Eval, PlanMeans, WellFormed, QueryMeans, PlansOf;
      forall i | 0 <= i < |conditions|
        ensures Eval(e, db, params, n, conditions[i], id) == PlanMeans(e, db, id, plans[i])
      {
        assert SaysPlan(e, db, params, n, conditions[i], plans[i]);
      }
    }
  }

  lemma AllStillSay(
    e: Engine, db: Database, before: Params, m: nat, after: Params, n: nat, conditions: seq<Cond>, plans: seq<Plan>,
    c: Cond, p: Plan)
    requires AllSay(e, db, before, m, conditions, plans) && Extends(before, m, after, n)
    requires SaysPlan(e, db, after, n, c, p)
    ensures AllSay(e, db, after, n, conditions + [c], plans + [p])
  {
    hide SaysPlan, Extends;
    forall i | 0 <= i < |plans|
      ensures SaysPlan(e, db, after, n, conditions[i], plans[i])
    {
      StillSaysPlan(e, db, before, m, after, n, conditions[i], plans[i]);
    }
  }

  /**
   * A whole query: the built conditions select exactly the rows that its free text and every filter ask for. The first
   * filter with an invalid value is reported instead.
   */
  method BuildConditions(residual: string, tokens: seq<FieldToken>, e: Engine, ghost db: Database)
    returns (b: ConditionBuilder, invalid: Option<nat>)
    requires FoldsLetters(e)
    ensures fresh(b) && b.Valid() && b.engine == e
    ensures invalid.Some? ==>
              && invalid.value < |tokens| && !Proper(e, tokens[invalid.value])
              && forall i :: 0 <= i < invalid.value ==> Proper(e, tokens[i])
    ensures invalid.None? ==> forall i :: 0 <= i < |tokens| ==> Proper(e, tokens[i])
    ensures invalid.None? ==> AllSay(e, db, b.params, b.paramIdx, b.conditions, PlansOf(e, residual, tokens))
    ensures invalid.None? ==> forall id :: id in db.rows ==>
              (Selects(e, db, b.params, b.paramIdx, b.conditions, id) <==> QueryAsks(e, db, id, residual, tokens))
  {
    hide FoldsLetters, SaysPlan, Says, PlanOf, Selects, QueryMeans, PlanMeans, MatchQuery, AllSay, Proper, SaysFilter;
    hide QueryAsks;
    b := new ConditionBuilder(e);
    ghost var plans: seq<Plan> := [];
    assert AllSay(e, db, b.params, b.paramIdx, b.conditions, plans) by {
      NothingToSay(e, db, b.params, b.paramIdx);
    }
    if residual != "" {
      var w := FullTextWant(MatchQuery(e, residual));
      ghost var before, m := b.params, b.paramIdx;
      var c := b.Part(w, db);
      OneSays(e, db, b.params, b.paramIdx, c, w);
      AllStillSay(e, db, before, m, b.params, b.paramIdx, b.conditions, plans, c, One(w));
      b.conditions, plans := b.conditions + [c], plans + [One(w)];
    }
    assert PlansOf(e, residual, tokens[..0]) == plans;
    for k := 0 to |tokens|
      invariant fresh(b) && b.Valid() && b.engine == e
      invariant forall i :: 0 <= i < k ==> Proper(e, tokens[i])
      invariant AllSay(e, db, b.params, b.paramIdx, b.conditions, PlansOf(e, residual, tokens[..k]))
    {
      ghost var before, m, conditions := b.params, b.paramIdx, b.conditions;
      var valid := b.AddFilter(tokens[k], db);
      if !valid {
        return b, Some(k);
      }
      AllStillSay(e, db, before, m, b.params, b.paramIdx, conditions, PlansOf(e, residual, tokens[..k]),
        b.conditions[|conditions|], PlanOf(e, tokens[k]));
      assert b.conditions == conditions + [b.conditions[|conditions|]];
      assert PlansOf(e, residual, tokens[..k + 1]) == PlansOf(e, residual, tokens[..k]) + [PlanOf(e, tokens[k])];
    }
    assert tokens[..|tokens|] == tokens;
    SelectsWhatIsMeant(e, db, b.params, b.paramIdx, b.conditions, residual, tokens);
    forall id | id in db.rows
      ensures QueryMeans(e, db, id, residual, tokens) <==> QueryAsks(e, db, id, residual, tokens)
    {
      QueryAsksIff(e, db, id, residual, tokens);
    }
    invalid := None;
  }

  /** An unquoted text filter, field by field: rows whose column holds the value. */
  lemma TextFilterSelects(e: Engine, db: Database, id: int, field: string, column: Column, v: string)
    requires id in db.rows && '|' !in v
    requires (field, column) in {
               ("prompt", Prompt), ("negative", NegativePrompt), ("name", Name), ("tool", Tool), ("sampler", Sampler),
               ("scheduler", Scheduler), ("vae", Vae), ("date", Date), ("generation_time", GenerationTime)}
    ensures QueryAsks(e, db, id, "", [FieldToken(field, v, "=", "", None)]) <==>
            column in db.rows[id].text && Occurs(v, db.rows[id].text[column])
  {
    var ft := FieldToken(field, v, "=", "", None);
    assert Choices(ft, false) == [v] && Choices(ft, true) == [v];
    assert v in [v];
    hide Occurs, Choices;
    assert AsksList(db.rows[id], column, ft, false) == AsksList(db.rows[id], column, ft, true)
        == Contains(db.rows[id], column, v);
    hide AsksList, Contains;
    assert QueryAsks(e, db, id, "", [ft]) <==> Asks(e, db, id, [ft][0]);
  }

  /** A number filter, field by field: rows whose column compares with the number. */
  lemma NumberFilterSelects(
    e: Engine, db: Database, id: int, field: string, column: NumberColumn, operator: string, v: string)
    requires id in db.rows && FieldNumber(e, field, v).Some?
    requires (field, column) in {
               ("width", Width), ("height", Height), ("steps", Steps), ("cfg_scale", CfgScale),
               ("clip_skip", ClipSkip), ("hires_upscale", HiresUpscale), ("hires_steps", HiresSteps),
               ("denoising_strength", Denoising), ("ensd", Ensd), ("aesthetic_score", AestheticScore)}
    ensures var ft := FieldToken(field, v, operator, "", None);
      var y := FieldNumber(e, field, v).value.Size();
      QueryAsks(e, db, id, "", [ft]) <==>
        && column in db.rows[id].numbers
        && var x := db.rows[id].numbers[column];
        if operator == "<" then x < y else if operator == "<=" then x <= y
        else if operator == ">" then x > y else if operator == ">=" then x >= y else x == y
  {
    var ft := FieldToken(field, v, operator, "", None);
    NumberOrder(operator, 0.0, 0.0);
    hide FieldNumber;
    assert Asks(e, db, id, ft) == AsksNumber(e, db.rows[id], column, ft);
    hide Asks;
    assert QueryAsks(e, db, id, "", [ft]) <==> Asks(e, db, id, [ft][0]);
  }

  /** int() first, which must fit 64 bits, and float() only for what int() does not read. */
  lemma AnyNumberIs(e: Engine, v: string)
    ensures AnyNumber(e, v) ==
            if e.asInt(v).Some?
            then (if -0x8000_0000_0000_0000 <= e.asInt(v).value <= 0x7FFF_FFFF_FFFF_FFFF
                  then Some(Whole(e.asInt(v).value)) else None)
            else if e.asFloat(v).Some? then Some(Fraction(e.asFloat(v).value)) else None
  {
  }

  lemma NothingToSay(e: Engine, db: Database, params: Params, n: nat)
    ensures AllSay(e, db, params, n, [], [])
  {
  }

  lemma TextFieldIff(field: string)
    ensures IsTextField(field) <==> field == "model" || (TextColumn(field).Some? && !HasHandler(field))
  {
  }

  /**
   * SQL rejects the condition of a valid filter iff it is a quoted list without a single term, or a JSON filter
   * without a key.
   */
  lemma RejectedIff(e: Engine, ft: FieldToken)
    requires Proper(e, ft)
    ensures !Accepted(PlanOf(e, ft)) <==> Rejected(ft)
  {
    NoTermIff(ft.value);
    ChoicesAre(ft);
    TextFieldIff(ft.field);
    InvalidIff(e, ft);
    hide Kept, SplitOn, OrValues, FieldNumber, SizeOf, Like.Pattern, Proper, IsTextField, NumberColumnOf, IsDate, Strip;
    hide IsNarrowed;
  }

  /** The shortest such list, and a JSON filter whose key was cut off by a nested field name. */
  lemma RejectedFilters(e: Engine)
    ensures var ft := FieldToken("prompt", ", ", "=", "\"", None); Proper(e, ft) && !Accepted(PlanOf(e, ft))
    ensures var ft := FieldToken("param", "", "=", "", Some("")); Proper(e, ft) && !Accepted(PlanOf(e, ft))
  {
    var list, json := FieldToken("prompt", ", ", "=", "\"", None), FieldToken("param", "", "=", "", Some(""));
    assert ", "[0] == ',' && ", "[1] == ' ';
    assert Proper(e, list) && Proper(e, json) && Rejected(list) && Rejected(json);
    hide Rejected, Accepted, PlanOf, Proper;
    RejectedIff(e, list);
    RejectedIff(e, json);
  }
}
