/**
 * URL-safe base64 as the cursors and value ids use it (RFC 4648, sections 4 and 5): padding is stripped after
 * encoding and restored before decoding (section 3.2).
 */
module Base64Url {
  import opened Prelude

  type Byte = b: int | 0 <= b < 256

  predicate InAlphabet(c: char) {
    'A' <= c <= 'Z' || 'a' <= c <= 'z' || '0' <= c <= '9' || c == '-' || c == '_'
  }

  function Letter(v: int): (c: char)
    requires 0 <= v < 64
    ensures InAlphabet(c) && c != '=' && Value(c) == v
  {
    if v < 26 then ('A' as int + v) as char
    else if v < 52 then ('a' as int + (v - 26)) as char
    else if v < 62 then ('0' as int + (v - 52)) as char
    else if v == 62 then '-' else '_'
  }

  function Value(c: char): (v: int)
    requires InAlphabet(c)
    ensures 0 <= v < 64
  {
    if 'A' <= c <= 'Z' then c as int - 'A' as int
    else if 'a' <= c <= 'z' then c as int - 'a' as int + 26
    else if '0' <= c <= '9' then c as int - '0' as int + 52
    else if c == '-' then 62 else 63
  }

  type Sextet = v: int | 0 <= v < 64

  /** The four sextets of three bytes, and the bytes of the sextets. */
  function First(a: Byte): Sextet { a / 4 }

  function Second(a: Byte, b: Byte): Sextet { a % 4 * 16 + b / 16 }

  function Third(b: Byte, c: Byte): Sextet { b % 16 * 4 + c / 64 }

  function Fourth(c: Byte): Sextet { c % 64 }

  function ByteA(v: Sextet, w: Sextet): Byte { v * 4 + w / 16 }

  function ByteB(v: Sextet, w: Sextet): Byte { v % 16 * 16 + w / 4 }

  function ByteC(v: Sextet, w: Sextet): Byte { v % 4 * 64 + w }

  lemma BytesReturn(a: Byte, b: Byte, c: Byte)
    ensures ByteA(First(a), Second(a, b)) == a
    ensures ByteB(Second(a, b), Third(b, c)) == b
    ensures ByteC(Third(b, c), Fourth(c)) == c
  {
  }

  /** Three bytes become four letters; one or two left over are padded with '='. */
  function Encode(b: seq<Byte>): string {
    if b == [] then ""
    else if |b| == 1 then [Letter(First(b[0])), Letter(Second(b[0], 0)), '=', '=']
    else if |b| == 2 then [Letter(First(b[0])), Letter(Second(b[0], b[1])), Letter(Third(b[1], 0)), '=']
    else
      var group := [Letter(First(b[0])), Letter(Second(b[0], b[1])), Letter(Third(b[1], b[2])), Letter(Fourth(b[2]))];
      group + Encode(b[3..])
  }

  const CAPITALS := "ABCDEFGHIJKLMNOPQRSTUVWXYZ"
  const SMALL := "abcdefghijklmnopqrstuvwxyz"
  const REST := "0123456789-_"
  const ALPHABET := CAPITALS + SMALL + REST

  lemma InCapitals(v: int)
    requires 0 <= v < 26
    ensures |CAPITALS| == 26 && CAPITALS[v] as int == 'A' as int + v
  {
  }

  lemma InSmall(v: int)
    requires 0 <= v < 26
    ensures |SMALL| == 26 && SMALL[v] as int == 'a' as int + v
  {
  }

  lemma LetterIsRfc(v: int)
    requires 0 <= v < 64
    ensures |ALPHABET| == 64 && Letter(v) == ALPHABET[v]
  {
    InCapitals(if v < 26 then v else 0);
    InSmall(if 26 <= v < 52 then v - 26 else 0);
  }

  type Number = n: int | 0 <= n < 0x100_0000

  /** Three bytes as one number of 24 bits. */
  function NumberOf(a: Byte, b: Byte, c: Byte): Number {
    (a * 256 + b) * 256 + c
  }

  /** The first k of the four digits of a number to the base of 64, highest first. */
  predicate Digits(n: Number, k: nat, s: string) {
    && k <= |s| && k <= 4
    && (k > 0 ==> s[0] == ALPHABET[n / 64 / 64 / 64]) && (k > 1 ==> s[1] == ALPHABET[n / 64 / 64 % 64])
    && (k > 2 ==> s[2] == ALPHABET[n / 64 % 64]) && (k > 3 ==> s[3] == ALPHABET[n % 64])
  }

  lemma By64(n: nat, m: nat, r: Sextet)
    requires n == 64 * m + r
    ensures n / 64 == m && n % 64 == r
  {
  }

  lemma FourDigits(n: Number, p: Sextet, q: Sextet, r: Sextet, t: Sextet)
    requires n == 64 * (64 * (64 * p + q) + r) + t
    ensures p == n / 64 / 64 / 64 && q == n / 64 / 64 % 64 && r == n / 64 % 64 && t == n % 64
  {
    By64(n, 64 * (64 * p + q) + r, t);
    By64(64 * (64 * p + q) + r, 64 * p + q, r);
    By64(64 * p + q, p, q);
  }

  lemma SextetsOf(a: Byte, b: Byte, c: Byte)
    ensures var n := NumberOf(a, b, c);
      && First(a) == n / 64 / 64 / 64 && Second(a, b) == n / 64 / 64 % 64
      && Third(b, c) == n / 64 % 64 && Fourth(c) == n % 64
  {
    FourDigits(NumberOf(a, b, c), First(a), Second(a, b), Third(b, c), Fourth(c));
  }

  /** Each group of three bytes is written as a number of four digits, and a shorter one with '=' for the missing. */
  lemma EncodeIsRfc(b: seq<Byte>)
    ensures match |b|
            case 0 => Encode(b) == ""
            case 1 => Digits(NumberOf(b[0], 0, 0), 2, Encode(b)) && Encode(b)[2..] == "=="
            case 2 => Digits(NumberOf(b[0], b[1], 0), 3, Encode(b)) && Encode(b)[3..] == "="
            case _ => Digits(NumberOf(b[0], b[1], b[2]), 4, Encode(b)) && Encode(b)[4..] == Encode(b[3..])
  {
    hide Letter, First, Second, Third, Fourth, NumberOf, InAlphabet, Value;
    if |b| > 0 {
      var b1 := if |b| > 1 then b[1] else 0;
      var b2 := if |b| > 2 then b[2] else 0;
      SextetsOf(b[0], b1, b2);
      LetterIsRfc(First(b[0]));
      LetterIsRfc(Second(b[0], b1));
      LetterIsRfc(Third(b1, b2));
      LetterIsRfc(Fourth(b2));
      GroupOf(b, b1, b2);
      hide Encode, ALPHABET;
    }
  }

  lemma GroupOf(b: seq<Byte>, b1: Byte, b2: Byte)
    requires |b| > 0 && (|b| > 1 ==> b1 == b[1]) && (|b| > 2 ==> b2 == b[2])
    requires (|b| == 1 ==> b1 == 0) && (|b| <= 2 ==> b2 == 0)
    ensures var e := Encode(b);
      && |e| >= 4 && e[0] == Letter(First(b[0])) && e[1] == Letter(Second(b[0], b1))
      && (|b| > 1 ==> e[2] == Letter(Third(b1, b2))) && (|b| > 2 ==> e[3] == Letter(Fourth(b2)))
      && e[if |b| < 3 then |b| + 1 else 4..] == if |b| == 1 then "==" else if |b| == 2 then "=" else Encode(b[3..])
  {
    hide Letter, First, Second, Third, Fourth, InAlphabet, Value;
  }

  function Strip(s: string): string {
    if s != [] && s[|s| - 1] == '=' then Strip(s[..|s| - 1]) else s
  }

  /** cursor + "=" * (-len(cursor) % 4) */
  function Pad(s: string): string {
    s + if |s| % 4 == 0 then "" else if |s| % 4 == 1 then "===" else if |s| % 4 == 2 then "==" else "="
  }

  /** The last group of four may end in one or two padding characters; their unused bits are ignored. */
  function Decode(s: string): Option<seq<Byte>> {
    if s == [] then Some([])
    else if |s| < 4 || !InAlphabet(s[0]) || !InAlphabet(s[1]) then None
    else
      var first := ByteA(Value(s[0]), Value(s[1]));
      if s[2] == '=' then (if s[3] == '=' && |s| == 4 then Some([first]) else None)
      else if !InAlphabet(s[2]) then None
      else
        var second := ByteB(Value(s[1]), Value(s[2]));
        if s[3] == '=' then (if |s| == 4 then Some([first, second]) else None)
        else if !InAlphabet(s[3]) then None
        else
          match Decode(s[4..])
          case None => None
          case Some(rest) => Some([first, second, ByteC(Value(s[2]), Value(s[3]))] + rest)
  }

  lemma {:induction false} DecodeUndoesEncode(b: seq<Byte>)
    ensures Decode(Encode(b)) == Some(b)
  {
    hide Letter, First, Second, Third, Fourth, ByteA, ByteB, ByteC, Value;
    if |b| >= 3 {
      DecodeUndoesEncode(b[3..]);
      BytesReturn(b[0], b[1], b[2]);
      assert Encode(b)[4..] == Encode(b[3..]);
      assert [b[0], b[1], b[2]] + b[3..] == b;
    } else if |b| == 2 {
      BytesReturn(b[0], b[1], 0);
      assert b == [b[0], b[1]];
    } else if |b| == 1 {
      BytesReturn(b[0], 0, 0);
      assert b == [b[0]];
    }
  }

  predicate AllInAlphabet(s: string) {
    forall i :: 0 <= i < |s| ==> InAlphabet(s[i])
  }

  function Pads(n: nat): string {
    if n % 3 == 0 then "" else if n % 3 == 2 then "=" else "=="
  }

  lemma FirstGroup(b: seq<Byte>)
    requires |b| >= 3
    ensures |Encode(b)| >= 4 && Encode(b) == Encode(b)[..4] + Encode(b[3..]) && AllInAlphabet(Encode(b)[..4])
  {
    hide Letter, First, Second, Third, Fourth, Value, InAlphabet;
  }

  lemma LastGroup(b: seq<Byte>) returns (body: string)
    requires |b| < 3
    ensures Encode(b) == body + Pads(|b|) && AllInAlphabet(body) && |body| == if b == [] then 0 else |b| + 1
  {
    hide Letter, First, Second, Third, Fourth, Value, InAlphabet;
    body := Encode(b)[..if b == [] then 0 else |b| + 1];
  }

  /** How many letters n bytes need, and what is missing to a multiple of four. */
  lemma LetterCount(n: nat)
    ensures n >= 3 ==> (4 * n + 2) / 3 == 4 + (4 * (n - 3) + 2) / 3 && Pads(n) == Pads(n - 3)
    ensures ((4 * n + 2) / 3 + |Pads(n)|) % 4 == 0
    ensures n < 3 ==> (4 * n + 2) / 3 == if n == 0 then 0 else n + 1
  {
    var q, r := n / 3, n % 3;
    assert (4 * n + 2) / 3 == 4 * q + (4 * r + 2) / 3;
  }

  lemma {:induction false} EncodeSplits(b: seq<Byte>) returns (body: string)
    ensures Encode(b) == body + Pads(|b|) && AllInAlphabet(body) && |body| == (4 * |b| + 2) / 3
  {
    LetterCount(|b|);
    if |b| >= 3 {
      FirstGroup(b);
      var rest := EncodeSplits(b[3..]);
      hide Encode, Pads, InAlphabet;
      var head := Encode(b)[..4];
      body := head + rest;
      assert Encode(b) == head + (rest + Pads(|b|)) == body + Pads(|b|);
    } else {
      body := LastGroup(b);
    }
  }

  lemma NoPadsLeft(body: string, n: nat)
    requires AllInAlphabet(body)
    ensures Strip(body + Pads(n)) == body
  {
    if body == [] {
      assert body + Pads(n) == Pads(n) && "="[..0] == "" && "=="[..1] == "=" && Strip("=") == "";
    } else {
      assert InAlphabet(body[|body| - 1]);
      StripTail(body, Pads(n));
      assert "="[..0] == "" && "=="[..1] == "=" && Strip("=") == "" && body + "" == body;
    }
  }

  lemma PadCompletes(body: string, n: nat)
    requires |body| == (4 * n + 2) / 3
    ensures Pad(body) == body + Pads(n)
  {
    LetterCount(n);
  }

  /** The unpadded form has only alphabet letters, four for every three bytes, and padding restores the rest. */
  lemma PadRestores(b: seq<Byte>)
    ensures Pad(Strip(Encode(b))) == Encode(b)
    ensures |Strip(Encode(b))| == (4 * |b| + 2) / 3 && AllInAlphabet(Strip(Encode(b)))
  {
    hide Encode, Strip, AllInAlphabet, Pad, Pads;
    var body := EncodeSplits(b);
    NoPadsLeft(body, |b|);
    PadCompletes(body, |b|);
  }

  lemma {:induction false} StripTail(head: string, tail: string)
    requires head != [] && head[|head| - 1] != '='
    ensures Strip(head + tail) == head + Strip(tail)
  {
    if tail == [] {
      assert head + tail == head;
    } else if tail[|tail| - 1] == '=' {
      StripTail(head, tail[..|tail| - 1]);
      assert (head + tail)[..|head + tail| - 1] == head + tail[..|tail| - 1];
    }
  }

  /** Decoding a cursor undoes encoding it, for every payload. */
  lemma CursorRoundTrip(payload: seq<Byte>)
    ensures Decode(Pad(Strip(Encode(payload)))) == Some(payload)
  {
    PadRestores(payload);
    DecodeUndoesEncode(payload);
  }

  /** A 32-byte digest has a 43-letter id, which one '=' completes. */
  lemma ValueIdRoundTrip(digest: seq<Byte>)
    requires |digest| == 32
    ensures |Strip(Encode(digest))| == 43 && Decode(Strip(Encode(digest)) + "=") == Some(digest)
  {
    PadRestores(digest);
    CursorRoundTrip(digest);
    hide Encode, Strip, Decode;
  }
}
