/** SQLite's LIKE with ESCAPE '\', and the patterns that search and workflow filters hand to it. */
module Like {
  import opened Text

  /** One pattern against one text; a trailing escape character matches nothing. */
  predicate Matches(p: string, t: string)
    decreases |p| + |t|
  {
    if p == [] then t == []
    else if p[0] == '%' then Matches(p[1..], t) || (t != [] && Matches(p, t[1..]))
    else if p[0] == '\\' then |p| > 1 && t != [] && AsciiLower(t[0]) == AsciiLower(p[1]) && Matches(p[2..], t[1..])
    else if p[0] == '_' then t != [] && Matches(p[1..], t[1..])
    else t != [] && AsciiLower(t[0]) == AsciiLower(p[0]) && Matches(p[1..], t[1..])
  }

  predicate IsSpecial(c: char) {
    c == '\\' || c == '%' || c == '_'
  }

  /** Backslash before every backslash, percent sign and underscore. */
  function Escape(v: string): string {
    if v == [] then [] else (if IsSpecial(v[0]) then ['\\', v[0]] else [v[0]]) + Escape(v[1..])
  }

  /** An escaped literal consumes exactly its own characters. */
  /** An underscore stands for one character of any kind, a backslash takes the next one as it is. */
  lemma OneCharacter(c: char, t: string)
    ensures Matches("_", t) <==> |t| == 1
    ensures Matches(['\\', c], t) <==> |t| == 1 && AsciiLower(t[0]) == AsciiLower(c)
  {
    assert "_"[1..] == "" && ['\\', c][2..] == "";
    assert t != [] ==> (t[1..] == [] <==> |t| == 1);
  }

  lemma {:induction false} LiteralConsumes(v: string, rest: string, t: string)
    ensures Matches(Escape(v) + rest, t) <==> |v| <= |t| && SameLetters(v, t[..|v|]) && Matches(rest, t[|v|..])
    decreases |v|
  {
    if v == [] {
      assert Escape(v) + rest == rest && t[0..] == t;
    } else {
      var head := if IsSpecial(v[0]) then ['\\', v[0]] else [v[0]];
      assert Escape(v) + rest == head + (Escape(v[1..]) + rest);
      assert (head + (Escape(v[1..]) + rest))[|head|..] == Escape(v[1..]) + rest;
      if t != [] {
        LiteralConsumes(v[1..], rest, t[1..]);
        if |v| <= |t| {
          assert t[1..][..|v| - 1] == t[1..|v|] && t[1..][|v| - 1..] == t[|v|..];
          SameLettersStep(v, t[..|v|]);
          assert t[..|v|][1..] == t[1..|v|];
        }
      }
    }
  }

  lemma SameLettersStep(a: string, b: string)
    requires |a| == |b| > 0
    ensures SameLetters(a, b) <==> AsciiLower(a[0]) == AsciiLower(b[0]) && SameLetters(a[1..], b[1..])
  {
    if AsciiLower(a[0]) == AsciiLower(b[0]) && SameLetters(a[1..], b[1..]) {
      forall i | 0 <= i < |a|
        ensures AsciiLower(a[i]) == AsciiLower(b[i])
      {
        assert i > 0 ==> a[i] == a[1..][i - 1] && b[i] == b[1..][i - 1];
      }
    }
  }

  lemma {:induction false} AnythingMatches(t: string)
    ensures Matches("%", t)
    decreases |t|
  {
    assert "%"[1..] == [];
    if t != [] {
      AnythingMatches(t[1..]);
    }
  }

  /** A leading percent sign may skip any prefix. */
  lemma {:induction false} PercentSkips(q: string, t: string)
    ensures Matches("%" + q, t) <==> exists i :: 0 <= i <= |t| && Matches(q, t[i..])
    decreases |t|
  {
    assert ("%" + q)[1..] == q && t[0..] == t;
    if t != [] {
      PercentSkips(q, t[1..]);
      forall i | 1 <= i <= |t|
        ensures t[i..] == t[1..][i - 1..]
      {
      }
    }
  }

  /** LIKE 'escape(v)%' holds iff the text starts with v. */
  lemma PrefixPattern(v: string, t: string)
    ensures Matches(Escape(v) + "%", t) <==> OccursAt(v, t, 0)
  {
    LiteralConsumes(v, "%", t);
    if |v| <= |t| {
      AnythingMatches(t[|v|..]);
      assert t[0..0 + |v|] == t[..|v|];
    }
  }

  /** LIKE 'escape(v)' holds iff the text is v. */
  lemma ExactPattern(v: string, t: string)
    ensures Matches(Escape(v), t) <==> SameLetters(v, t)
  {
    LiteralConsumes(v, "", t);
    assert Escape(v) + "" == Escape(v);
    if |v| <= |t| {
      assert t[|v|..] == [] ==> t[..|v|] == t;
    }
  }

  /** LIKE '%escape(v)%' holds iff v is a substring of the text. */
  lemma ContainsPattern(v: string, t: string)
    ensures Matches("%" + Escape(v) + "%", t) <==> Occurs(v, t)
  {
    assert "%" + Escape(v) + "%" == "%" + (Escape(v) + "%");
    PercentSkips(Escape(v) + "%", t);
    forall i | 0 <= i <= |t|
      ensures Matches(Escape(v) + "%", t[i..]) <==> OccursAt(v, t, i)
    {
      PrefixPattern(v, t[i..]);
      if i + |v| <= |t| {
        assert t[i..][0..|v|] == t[i..i + |v|];
      }
    }
  }

  // ---------------------------------------------------------------- user wildcards

  function StarsToPercents(p: string): string {
    if p == [] then [] else (if p[0] == '*' then ['%'] else [p[0]]) + StarsToPercents(p[1..])
  }

  predicate EndsWithStar(v: string) {
    v != [] && v[|v| - 1] == '*' && !(|v| > 1 && v[|v| - 2] == '\\')
  }

  /** The pattern of a value with user wildcards; a trailing star leaves the other stars literal. */
  function Pattern(v: string): string {
    if EndsWithStar(v) then Escape(v[..|v| - 1]) + "%"
    else if '*' !in v then Escape(v)
    else StarsToPercents(Escape(v))
  }

  /** What a star means: any run of characters; every other character stands for itself. */
  predicate Glob(v: string, t: string)
    decreases |v| + |t|
  {
    if v == [] then t == []
    else if v[0] == '*' then Glob(v[1..], t) || (t != [] && Glob(v, t[1..]))
    else t != [] && AsciiLower(t[0]) == AsciiLower(v[0]) && Glob(v[1..], t[1..])
  }

  lemma {:induction false} StarPatternIsGlob(v: string, t: string)
    ensures Matches(StarsToPercents(Escape(v)), t) <==> Glob(v, t)
    decreases |v| + |t|
  {
    if v != [] {
      var p, rest := StarsToPercents(Escape(v)), StarsToPercents(Escape(v[1..]));
      if IsSpecial(v[0]) {
        assert Escape(v)[1..] == [v[0]] + Escape(v[1..]) && Escape(v)[1..][1..] == Escape(v[1..]);
        assert p == ['\\', v[0]] + rest && p[2..] == rest;
      } else {
        assert Escape(v)[1..] == Escape(v[1..]);
        assert p == (if v[0] == '*' then ['%'] else [v[0]]) + rest && p[1..] == rest;
      }
      if v[0] == '*' {
        StarPatternIsGlob(v[1..], t);
        if t != [] {
          StarPatternIsGlob(v, t[1..]);
        }
      } else if t != [] {
        StarPatternIsGlob(v[1..], t[1..]);
      }
    }
  }

  /** A trailing star asks for a prefix, no star for the whole text, and inner stars for a glob. */
  lemma PatternMeaning(v: string, t: string)
    ensures Matches(Pattern(v), t) <==>
              if EndsWithStar(v) then OccursAt(v[..|v| - 1], t, 0)
              else if '*' !in v then SameLetters(v, t)
              else Glob(v, t)
  {
    if EndsWithStar(v) {
      PrefixPattern(v[..|v| - 1], t);
    } else if '*' !in v {
      ExactPattern(v, t);
    } else {
      StarPatternIsGlob(v, t);
    }
  }
}
