/** Character classes and trimming as Python's str methods and SQLite's built-in collation see them. */
module Text {

  /** str.isspace and the \s class of a str pattern. */
  predicate IsSpace(c: char) {
    var n := c as int;
    9 <= n <= 13 || 28 <= n <= 32 || n == 0x85 || n == 0xA0 || n == 0x1680 || 0x2000 <= n <= 0x200A
    || n == 0x2028 || n == 0x2029 || n == 0x202F || n == 0x205F || n == 0x3000
  }

  /** The length of the leading white space. */
  function Skip(s: string): (n: nat)
    ensures n <= |s|
  {
    if s != [] && IsSpace(s[0]) then 1 + Skip(s[1..]) else 0
  }

  lemma {:induction false} SkipStops(s: string)
    ensures (forall k :: 0 <= k < Skip(s) ==> IsSpace(s[k])) && (Skip(s) < |s| ==> !IsSpace(s[Skip(s)]))
  {
    if s != [] && IsSpace(s[0]) {
      SkipStops(s[1..]);
      assert forall k :: 1 <= k < |s| ==> s[k] == s[1..][k - 1];
    }
  }

  function LStrip(s: string): string {
    s[Skip(s)..]
  }

  function RStrip(s: string): (r: string)
    ensures |r| <= |s|
  {
    if s != [] && IsSpace(s[|s| - 1]) then RStrip(s[..|s| - 1]) else s
  }

  lemma {:induction false} RStripCuts(s: string)
    ensures var r := RStrip(s);
      r == s[..|r|] && (forall k :: |r| <= k < |s| ==> IsSpace(s[k])) && (r != [] ==> !IsSpace(r[|r| - 1]))
  {
    if s != [] && IsSpace(s[|s| - 1]) {
      RStripCuts(s[..|s| - 1]);
    }
  }

  function Strip(s: string): string {
    LStrip(RStrip(s))
  }

  /** What is cut off at both ends is white space, and what remains neither starts nor ends with it. */
  lemma StripCuts(s: string) returns (a: nat, b: nat)
    ensures a <= b <= |s| && Strip(s) == s[a..b]
    ensures forall k :: 0 <= k < a || b <= k < |s| ==> IsSpace(s[k])
    ensures Strip(s) != [] ==> !IsSpace(s[a]) && !IsSpace(s[b - 1])
  {
    var r := RStrip(s);
    RStripCuts(s);
    SkipStops(r);
    a, b := Skip(r), |r|;
    assert forall k :: 0 <= k < a ==> r[k] == s[k];
  }

  lemma StripEmptyIff(s: string)
    ensures Strip(s) == [] <==> forall k :: 0 <= k < |s| ==> IsSpace(s[k])
  {
    var a, b := StripCuts(s);
  }

  function AsciiLower(c: char): char {
    if 'A' <= c <= 'Z' then (c as int + 32) as char else c
  }

  /** Equal up to ASCII letter case: the equality of SQLite's LIKE and lower(). */
  predicate SameLetters(a: string, b: string) {
    |a| == |b| && forall i :: 0 <= i < |a| ==> AsciiLower(a[i]) == AsciiLower(b[i])
  }

  predicate OccursAt(v: string, t: string, i: nat) {
    i + |v| <= |t| && SameLetters(v, t[i..i + |v|])
  }

  /** v is a substring of t, up to ASCII letter case. */
  ghost predicate Occurs(v: string, t: string) {
    exists i :: OccursAt(v, t, i)
  }

  predicate NoCapitals(s: string) {
    forall i :: 0 <= i < |s| ==> AsciiLower(s[i]) == s[i]
  }

  /** v stands in t at position i, character by character. */
  predicate StandsAt(v: string, t: string, i: nat) {
    i + |v| <= |t| && t[i..i + |v|] == v
  }

  /** Without capitals, letter case makes no difference. */
  lemma ExactWithoutCapitals(v: string, t: string, i: nat)
    requires NoCapitals(v) && NoCapitals(t)
    ensures OccursAt(v, t, i) <==> StandsAt(v, t, i)
  {
    if OccursAt(v, t, i) {
      forall k | 0 <= k < |v|
        ensures t[i..i + |v|][k] == v[k]
      {
        assert AsciiLower(t[i + k]) == t[i + k] && AsciiLower(v[k]) == AsciiLower(t[i..i + |v|][k]);
      }
    }
  }
}
