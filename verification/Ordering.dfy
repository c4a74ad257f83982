/** Strict orders, sorted sequences, and the stable sort behind the program's sorted(..., key=...) calls. */
module Ordering {
  import opened Prelude

  /** A strict total order. */
  ghost predicate TotalOrder<K(!new)>(less: (K, K) -> bool) {
    && (forall a :: !less(a, a))
    && (forall a, b, c :: less(a, b) && less(b, c) ==> less(a, c))
    && (forall a, b :: a != b ==> less(a, b) || less(b, a))
  }

  /** The order of a sort key: values with equal keys are not told apart. */
  ghost predicate WeakOrder<K(!new)>(less: (K, K) -> bool) {
    && (forall a, b :: less(a, b) ==> !less(b, a))
    && (forall a, b, c :: !less(a, b) && !less(b, c) ==> !less(a, c))
  }

  /** Every entry is below all that follow it. */
  ghost predicate Sorted<K>(less: (K, K) -> bool, s: seq<K>) {
    forall i, j :: 0 <= i < j < |s| ==> less(s[i], s[j])
  }

  /** No entry is above one that follows it. */
  ghost predicate InOrder<K>(less: (K, K) -> bool, s: seq<K>) {
    forall i, j :: 0 <= i < j < |s| ==> !less(s[j], s[i])
  }

  /** Puts x behind every entry that is not greater. */
  function Insert<K>(less: (K, K) -> bool, s: seq<K>, x: K): seq<K> {
    if s == [] || !less(x, s[|s| - 1]) then s + [x] else Insert(less, s[..|s| - 1], x) + [s[|s| - 1]]
  }

  function Sort<K>(less: (K, K) -> bool, s: seq<K>): seq<K> {
    if s == [] then [] else Insert(less, Sort(less, s[..|s| - 1]), s[|s| - 1])
  }

  lemma {:induction false} InsertAdds<K>(less: (K, K) -> bool, s: seq<K>, x: K)
    ensures multiset(Insert(less, s, x)) == multiset(s) + multiset{x}
  {
    if s != [] && less(x, s[|s| - 1]) {
      InsertAdds(less, s[..|s| - 1], x);
      assert s == s[..|s| - 1] + [s[|s| - 1]];
    }
  }

  lemma {:induction false} InsertKeepsOrder<K(!new)>(less: (K, K) -> bool, s: seq<K>, x: K)
    requires WeakOrder(less) && InOrder(less, s)
    ensures InOrder(less, Insert(less, s, x))
  {
    if s != [] {
      var front, last := s[..|s| - 1], s[|s| - 1];
      if less(x, last) {
        InsertKeepsOrder(less, front, x);
        InsertAdds(less, front, x);
        var t := Insert(less, front, x);
        forall i | 0 <= i < |t|
          ensures !less(last, t[i])
        {
          assert t[i] in multiset(t);
          assert t[i] == x || t[i] in front;
        }
      } else {
        forall i | 0 <= i < |s|
          ensures !less(x, s[i])
        {
          assert !less(x, last) && (i < |s| - 1 ==> !less(last, s[i]));
        }
      }
    }
  }

  lemma {:induction false} SortPermutes<K>(less: (K, K) -> bool, s: seq<K>)
    ensures multiset(Sort(less, s)) == multiset(s) && |Sort(less, s)| == |s|
    ensures forall x :: x in Sort(less, s) <==> x in s
  {
    if s != [] {
      SortPermutes(less, s[..|s| - 1]);
      InsertAdds(less, Sort(less, s[..|s| - 1]), s[|s| - 1]);
      assert s == s[..|s| - 1] + [s[|s| - 1]];
    }
    assert |multiset(Sort(less, s))| == |multiset(s)|;
    forall x
      ensures x in Sort(less, s) <==> x in s
    {
      assert x in multiset(Sort(less, s)) <==> x in multiset(s);
    }
  }

  lemma {:induction false} SortOrders<K(!new)>(less: (K, K) -> bool, s: seq<K>)
    requires WeakOrder(less)
    ensures InOrder(less, Sort(less, s))
  {
    if s != [] {
      SortOrders(less, s[..|s| - 1]);
      InsertKeepsOrder(less, Sort(less, s[..|s| - 1]), s[|s| - 1]);
    }
  }

  /** Sorting values that do not repeat by an order that decides between them. */
  lemma SortIsStrict<K(!new)>(less: (K, K) -> bool, s: seq<K>)
    requires TotalOrder(less) && Distinct(s)
    ensures Sorted(less, Sort(less, s))
  {
    var r := Sort(less, s);
    TotalIsWeak(less);
    SortOrders(less, s);
    SortPermutes(less, s);
    ValuesOf(s);
    ValuesOf(r);
    assert (set x | x in r) == (set x | x in s);
    forall i, j | 0 <= i < j < |r|
      ensures less(r[i], r[j])
    {
      assert !less(r[j], r[i]) && r[i] != r[j];
    }
  }

  lemma TotalIsWeak<K(!new)>(less: (K, K) -> bool)
    requires TotalOrder(less)
    ensures WeakOrder(less)
  {
    forall a, b, c | !less(a, b) && !less(b, c)
      ensures !less(a, c)
    {
      assert a == b || less(b, a);
      assert b == c || less(c, b);
    }
  }

  /** The values smaller than x. */
  ghost function Below<K(!new)>(less: (K, K) -> bool, s: seq<K>, x: K): set<K> {
    set y | y in s && less(y, x)
  }

  /** In a sorted sequence the position of a value is the number of smaller ones. */
  lemma PositionIsRank<K(!new)>(less: (K, K) -> bool, s: seq<K>, i: nat)
    requires TotalOrder(less) && Sorted(less, s) && i < |s|
    ensures |Below(less, s, s[i])| == i
  {
    forall x
      ensures x in s && less(x, s[i]) <==> x in s[..i]
    {
      if x in s && less(x, s[i]) {
        var j :| 0 <= j < |s| && s[j] == x;
        assert !less(s[i], s[j]) && j != i;
        assert s[..i][j] == x;
      }
    }
    assert Below(less, s, s[i]) == set x | x in s[..i];
    ValuesOf(s[..i]);
  }

  /** The first n entries are the values with fewer than n smaller ones. */
  lemma PrefixByRank<K(!new)>(less: (K, K) -> bool, s: seq<K>, n: nat, x: K)
    requires TotalOrder(less) && Sorted(less, s)
    ensures x in s[..if |s| < n then |s| else n] <==> x in s && |Below(less, s, x)| < n
  {
    var k := if |s| < n then |s| else n;
    if x in s {
      var i :| 0 <= i < |s| && s[i] == x;
      PositionIsRank(less, s, i);
      if x in s[..k] {
        var j :| 0 <= j < k && s[..k][j] == x;
        PositionIsRank(less, s, j);
      }
      assert i < k ==> s[..k][i] == x;
    }
  }

  /** Python's order of str values, by code point. */
  predicate StringLess(a: string, b: string) {
    b != [] && (a == [] || a[0] < b[0] || (a[0] == b[0] && StringLess(a[1..], b[1..])))
  }

  /** The first place where two texts differ decides; a beginning comes before the whole. */
  ghost predicate DiffersFirstAt(a: string, b: string, n: nat) {
    n <= |a| && n < |b| && a[..n] == b[..n] && (n == |a| || a[n] < b[n])
  }

  lemma {:induction false} LessDiffers(a: string, b: string) returns (n: nat)
    requires StringLess(a, b)
    ensures DiffersFirstAt(a, b, n)
  {
    if a == [] || a[0] < b[0] {
      n := 0;
    } else {
      var m := LessDiffers(a[1..], b[1..]);
      n := m + 1;
      assert a[..n] == [a[0]] + a[1..][..m] && b[..n] == [b[0]] + b[1..][..m];
    }
  }

  lemma {:induction false} DiffersIsLess(a: string, b: string, n: nat)
    requires DiffersFirstAt(a, b, n)
    ensures StringLess(a, b)
  {
    if n > 0 {
      assert a[..n][0] == b[..n][0] && a[1..][..n - 1] == a[..n][1..] && b[1..][..n - 1] == b[..n][1..];
      DiffersIsLess(a[1..], b[1..], n - 1);
    }
  }

  lemma StringLessIff(a: string, b: string)
    ensures StringLess(a, b) <==> exists n: nat :: DiffersFirstAt(a, b, n)
  {
    hide DiffersFirstAt;
    if StringLess(a, b) {
      var n := LessDiffers(a, b);
    }
    if n: nat :| DiffersFirstAt(a, b, n) {
      DiffersIsLess(a, b, n);
    }
  }

  lemma {:induction false} NotBelowItself(a: string)
    ensures !StringLess(a, a)
  {
    if a != [] {
      NotBelowItself(a[1..]);
    }
  }

  lemma {:induction false} StringLessChains(a: string, b: string, c: string)
    ensures StringLess(a, b) && StringLess(b, c) ==> StringLess(a, c)
    ensures a != b ==> StringLess(a, b) || StringLess(b, a)
    decreases |a| + |b| + |c|
  {
    if a != [] && b != [] {
      StringLessChains(a[1..], b[1..], if c == [] then [] else c[1..]);
      if a[0] == b[0] && a[1..] == b[1..] {
        assert a == [a[0]] + a[1..] && b == [b[0]] + b[1..];
      }
    }
  }

  lemma StringLessIsTotal()
    ensures TotalOrder(StringLess)
  {
    forall a, b, c
      ensures !StringLess(a, a)
      ensures StringLess(a, b) && StringLess(b, c) ==> StringLess(a, c)
      ensures a != b ==> StringLess(a, b) || StringLess(b, a)
    {
      NotBelowItself(a);
      StringLessChains(a, b, c);
    }
  }
}
